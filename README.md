# tagCalibration in Dafny

A verified model of the logic inside tagCalibration, a set of Python tools for
ArUco marker tracking. The tools calibrate a camera, generate a printable
checkerboard, track markers in a video or live from a webcam, and analyse and
visualise the resulting 3-D trajectories.

The model covers the parts of the programs whose behaviour can be stated
exactly. Each source file becomes one Dafny module:

- `TrajectoryAnalysis` (`trajectory_analysis.dfy`): `TrajectoryAnalyzer`.
  - Loading checks the required columns and splits the rows into per-marker tracks sorted by time.
  - The metrics are forward differences, step and cumulative distance, velocity, speed, acceleration, angular velocity and degrees, with optional smoothing that keeps `_raw` copies.
  - The printed summary statistics.
  - The column selection of the export.
- `CameraCalibration` (`camera_calibration.dfy`): `CameraCalibrator`.
  - The object-point grid and the paired `objpoints`/`imgpoints` append.
  - The image, video and live calibration paths with their ten-image threshold, including the live capture loop with auto-capture and keys.
  - The `update_config_file` line rewriter, the quality bands, and the `"WxH"` board-size parser.
- `GenerateCheckerboard` (`generate_checkerboard.dfy`): the in-place fill of the board image as a two-dimensional array, the label border, and the printed physical size.
- `VisualizeTrajectory` (`visualize_trajectory.dfy`): `TrajectoryVisualizer`.
  - Grouping of the CSV rows per marker and the total path length.
  - The axis limits of the static plot and of the animation.
  - The prefix of each trajectory an animation frame shows.
- `LiveTracker` (`live_tracker.dfy`): `LiveArucoTracker`. SPACE toggles the recording state; one record is appended per detected marker while recording; the capture loop keeps its counters and produces the summary.
- `ArucoTracking` (`aruco_tracker.dfy`): `ArucoTracker`. It covers `FRAME_SKIP` sampling, the `frame / fps` timestamp, and the append-only record list.
- `VisualizeOnVideo` (`visualize_on_video.dfy`): `VideoOverlay`. It covers the cube wireframe's vertices and edges, and the frame loop with its progress lines.
- `DictionarySurvey` (`test_aruco_dictionaries.dfy`): per-dictionary aggregation of the ids and frames seen, the detection rate, and the stable descending ranking that picks the recommendation.
- `ArucoUtils` (`aruco_utils.dfy`):
  - per-argument fallback of the camera parameters to `config.py`;
  - `create_trajectory_point`;
  - the CSV `FIELDNAMES` and the rows written;
  - the return contract of `save_trajectory`.
- `Common` (`common.dfy`): the trajectory record, detections, `Option`, reductions over real sequences, per-marker filtering, and `waitKey(1) & 0xFF`.
- `Text` (`text.dfy`): the few Python string operations the rewriter and the parser use: `strip`, `startswith`, `split` and `int`.

Foreign calls become inputs. The OpenCV detector, the pose estimator, the chessboard finder, the calibration solver and drawing are represented this way:

| source | model |
|---|---|
| detected ids and vectors | `Detection` records |
| chessboard detection | a `BoardView` with `found` and the corners |
| the solver | a function parameter returning RMS, matrix, coefficients and mean error |
| drawing | function parameters on an opaque image |
| square roots | a parameter `sqrt` (lemmas that need it non-negative say so) |
| `savgol_filter` | a length-preserving parameter |

Clocks and keys are fields of the events a loop consumes. The events form a finite sequence, and running out of events ends a loop like a failed read.

NaN and infinity in the pandas columns are `None`. Samples are Dafny `real`s, so float rounding is not modelled.

In these places the model follows the code rather than a looser reading of it:
- Angular velocity is the raw difference of the rotation vectors over `dt`, and the degree columns are plain scalings. Nothing is wrapped to (-pi, pi] (trajectory_analysis.py:104-118).
- The sample rate is `n / duration`, not `(n - 1) / duration` (trajectory_analysis.py:156).
- `cumulative_distance` is undefined at row 0 rather than 0, because the cumulative sum of a NaN stays NaN (trajectory_analysis.py:84-85).
- Rows with duplicate timestamps are kept, not removed.
- `config.py` as shipped has a stray `]` on line 18, so it does not import. This is exactly the residue the rewriter leaves when the matrix's last row ends with `]` and a lone `]` line follows (`CameraCalibration.StrayBracket`). The model uses the values on lines 7-20 as the defaults.
- The frame-by-frame `annotate_frame` of `live_tracker.py:106-107` and `visualize_on_video.py:143-144` has the same early return as `annotate_marker_frame`. That shared early return is `Common.AnnotateMarkers`.

## Model

| member | source | states |
|---|---|---|
| `Common.RecordsOf` | aruco_tracker.py:73-94 | one record per detection, in detection order, each carrying the shared timestamp and frame and that marker's id, translation and rotation |
| `Common.Min` | trajectory_analysis.py:151 | the minimum is one of the values and no value is below it |
| `Common.Max` | trajectory_analysis.py:151 | the maximum is one of the values and no value is above it |
| `Common.MeanBetween` | trajectory_analysis.py:173-175 | the mean of a non-empty column lies between its minimum and its maximum |
| `Common.KeyByte` | live_tracker.py:314 | `waitKey(1) & 0xFF` is a value in 0..255 congruent to the key code modulo 256 |
| `Common.AnnotateMarkers` | aruco_utils.py:153-157 | without detected ids the frame is returned untouched |
| `Common.WithId` | trajectory_analysis.py:45 | the selected rows all carry the requested marker id, come from the input and are no more than the input |
| `Common.UniqueIds` | trajectory_analysis.py:44 | the ids in order of first appearance have no repeats and are exactly the ids occurring in the rows |
| `Common.GroupsPartition` | trajectory_analysis.py:44-47 | over the distinct ids, the per-marker groups add up to every row |
| `ArucoUtils.LoadCameraParams` | aruco_utils.py:56-89 | each given argument is kept and each missing one falls back, independently, to the configuration module's value (config.py when none is given) |
| `ArucoUtils.LoadCameraParamsDefaults` | config.py:7-20 | with nothing given the parameters are config.py's: a 3x3 camera matrix, five distortion coefficients and a positive marker size |
| `ArucoUtils.CreateTrajectoryPoint` | aruco_utils.py:231-255 | the record keeps timestamp and frame, takes x, y, z from the translation vector and rx, ry, rz from the rotation vector, and the id from the first element of an indexable id or from the number itself |
| `ArucoUtils.RecordIsTrajectoryPoint` | aruco_tracker.py:84-94 | the tracker's own record is the record create_trajectory_point builds from the same detection |
| `ArucoUtils.AsRow` | aruco_utils.py:218-223 | the dictionary written has exactly the nine header columns |
| `ArucoUtils.RowRoundTrip` | aruco_utils.py:200-223 | a written row reads back as the record it came from |
| `ArucoUtils.FieldnamesDistinct` | aruco_utils.py:200 | the header names nine distinct columns |
| `ArucoUtils.SaveTrajectory` | aruco_utils.py:203-228 | nothing is saved for an empty list; a non-empty list fails exactly when the file cannot be written; otherwise the header and one row per record are written |
| `ArucoUtils.SaveTrajectoryRows` | aruco_utils.py:214-228 | the result is true exactly for a non-empty list and a writable file, and each written row reads back as the record at its position |
| `ArucoTracking.TimestampOf` | aruco_tracker.py:81 | the timestamp is 0 without a positive frame rate, and otherwise times the frame rate gives the frame number |
| `ArucoTracking.TimestampMonotone` | aruco_tracker.py:81 | later frames never get earlier timestamps, and frame 0 is at time 0 |
| `ArucoTracking.TrackedFrames` | aruco_tracker.py:124-137 | every record comes from a frame already read whose number is a multiple of FRAME_SKIP, stamped with that frame's time |
| `ArucoTracking.TrackedOrdered` | aruco_tracker.py:124-137 | the records are in frame order |
| `ArucoTracking.TrackedCount` | aruco_tracker.py:124-137 | there are exactly as many records as detections in the sampled frames |
| `ArucoTracking.ArucoTracker.constructor` | aruco_tracker.py:15-45 | the camera parameters fall back to config.py one by one and the record list starts empty |
| `ArucoTracking.ArucoTracker.DetectAndEstimatePose` | aruco_tracker.py:47-96 | the list grows by one record per detected marker, in detection order, and by nothing without detections |
| `ArucoTracking.ArucoTracker.ProcessVideo` | aruco_tracker.py:98-148 | an unopenable video changes nothing and fails; otherwise the frame rate is recorded and the list grows by the records of every sampled frame; the whole list is then saved with save_trajectory (nothing written exactly when it is empty) and returned |
| `ArucoTracking.ArucoTracker.SaveTrajectory` | aruco_tracker.py:150-167 | nothing is written exactly when the list is empty; a write is never reported as failed because errors propagate |
| `TrajectoryAnalysis.AbsentHas` | trajectory_analysis.py:37 | a column is reported missing exactly when it is required and not in the header |
| `TrajectoryAnalysis.AbsentNone` | trajectory_analysis.py:37-41 | nothing is missing exactly when every required column is in the header |
| `TrajectoryAnalysis.MissingColumns` | trajectory_analysis.py:36-41 | the warning list is empty exactly when all eight required columns are present |
| `TrajectoryAnalysis.InsertByTime` | trajectory_analysis.py:46 | inserting a row into a track sorted by timestamp keeps it sorted and adds exactly that row |
| `TrajectoryAnalysis.SortByTime` | trajectory_analysis.py:46 | sort_values('timestamp') yields the same rows (as a multiset) in timestamp order |
| `TrajectoryAnalysis.WithIdNonEmpty` | trajectory_analysis.py:44-45 | every id that occurs selects at least one row |
| `TrajectoryAnalysis.TrackOfIsTrack` | trajectory_analysis.py:44-47 | the sorted rows of an occurring id form a non-empty, time-ordered track of that id only |
| `TrajectoryAnalysis.StoreTracksHas` | trajectory_analysis.py:44-47 | after the loop an id is stored exactly when it was stored before or occurs in the rows |
| `TrajectoryAnalysis.StoreNew` | trajectory_analysis.py:47 | storing the track of a new id under it and appending the id to the key order keeps the store consistent |
| `TrajectoryAnalysis.StoreTracksStored` | trajectory_analysis.py:44-47 | loading the tracks of occurring ids keeps the store consistent: no repeated key, keys and order agree, every track a track of its id |
| `TrajectoryAnalysis.StoreTracksOrder` | trajectory_analysis.py:44-47 | the key order grows by the loaded ids not stored before, in load order |
| `TrajectoryAnalysis.StoreTracksLoadedAt` | trajectory_analysis.py:45-47 | each loaded id holds exactly its rows sorted by timestamp |
| `TrajectoryAnalysis.StoreTracksKeptAt` | trajectory_analysis.py:44-47 | a stored id that does not occur in the rows keeps its track |
| `TrajectoryAnalysis.StoreTracksLoaded` | trajectory_analysis.py:29-47 | loading all ids of the rows keeps the store consistent, appends the new ids in order of first appearance, adds exactly the ids of the rows, gives each its sorted rows and keeps every other track |
| `TrajectoryAnalysis.TrackSizesAreCounts` | trajectory_analysis.py:50-51 | the printed sizes of the loaded tracks are the numbers of rows of each id |
| `TrajectoryAnalysis.LoadedTracksPartition` | trajectory_analysis.py:44-51 | the loaded tracks together hold every row once: their sizes add up to the row count |
| `TrajectoryAnalysis.ColumnOf` | trajectory_analysis.py:159-161 | a dataframe column holds the field of every row, in row order |
| `TrajectoryAnalysis.Defined` | trajectory_analysis.py:170 | dropping undefined entries never lengthens a column |
| `TrajectoryAnalysis.DefinedMembers` | trajectory_analysis.py:170 | a value survives replace(inf, nan).dropna() exactly when the column holds it as a defined entry |
| `TrajectoryAnalysis.DefinedNonEmpty` | trajectory_analysis.py:170-171 | something survives the dropna exactly when some entry is defined |
| `TrajectoryAnalysis.FillNa` | trajectory_analysis.py:127 | fillna(0) keeps every defined entry and turns every undefined one into 0 (NaN and inf are not told apart; see Left out) |
| `TrajectoryAnalysis.Filtered` | trajectory_analysis.py:127 | the smoothed column keeps the length of the input and is defined everywhere (inf is not modelled; see Left out) |
| `TrajectoryAnalysis.Unsmoothed` | trajectory_analysis.py:73-118 | the computed dataframe keeps the track, has no raw copies, and every derived column has one entry per row |
| `TrajectoryAnalysis.TrackMetrics` | trajectory_analysis.py:120-129 | the result keeps the track, and raw copies exist exactly when smoothing is on and the track is longer than the window |
| `TrajectoryAnalysis.SmoothingStep` | trajectory_analysis.py:120-127 | smoothing replaces speed, acceleration, angular_speed and the degree columns by their filtered values (defined everywhere, inf not modelled; see Left out), keeps the unfiltered ones as raw copies and leaves every other column as computed; without smoothing nothing changes |
| `TrajectoryAnalysis.FirstRowUndefined` | trajectory_analysis.py:76-118 | at row 0 every difference-based column is undefined and the degree columns are defined |
| `TrajectoryAnalysis.RateAt` | trajectory_analysis.py:88-90 | a velocity or angular-velocity component is defined exactly from row 1 on where dt is non-zero, and is the field's difference over dt |
| `TrajectoryAnalysis.RateChangeAt` | trajectory_analysis.py:96-98 | an acceleration component is defined exactly from row 2 on where both dts are non-zero, and is the velocity's difference over the current row's dt |
| `TrajectoryAnalysis.MagnitudeAt` | trajectory_analysis.py:92-113 | speed and angular_speed are defined exactly from row 1 where dt is non-zero, acceleration exactly from row 2 where both dt are non-zero, and none of them is negative under a non-negative root |
| `TrajectoryAnalysis.DegreesAt` | trajectory_analysis.py:116-118 | each degree column is defined at every row, converts back to the radians, and orders any two rows as the radians do (no wrapping) |
| `TrajectoryAnalysis.NoAngleWrap` | trajectory_analysis.py:104-118 | rotation differences and degrees are not wrapped: a turn from 3.1 to -3.1 rad in one second reads as -6.2 rad/s, and 3.2 rad as more than 180 degrees |
| `TrajectoryAnalysis.UniformMotion` | trajectory_analysis.py:88-98 | for a field linear in time the rate is the slope wherever defined and the rate of change is 0 wherever defined |
| `TrajectoryAnalysis.StepLengths` | trajectory_analysis.py:79-84 | there is one step length per pair of consecutive rows, the root of the squared step |
| `TrajectoryAnalysis.StepDistanceAt` | trajectory_analysis.py:84 | distance is undefined at row 0 and is the length of the step from the previous row elsewhere |
| `TrajectoryAnalysis.CumulativeDistanceAt` | trajectory_analysis.py:85 | cumulative_distance is undefined at row 0 and from row 1 on is the sum of the step lengths so far |
| `TrajectoryAnalysis.StepLengthsNonNegative` | trajectory_analysis.py:84 | with a non-negative square root every step length is non-negative |
| `TrajectoryAnalysis.CumulativeDistanceNonDecreasing` | trajectory_analysis.py:84-85 | cumulative_distance never decreases from row 1 on |
| `TrajectoryAnalysis.CumulativeDistanceBelowLast` | trajectory_analysis.py:85 | the last cumulative_distance is the sum of all steps and no entry exceeds it |
| `TrajectoryAnalysis.MaxCumulativeDistance` | trajectory_analysis.py:164 | the reported total distance is the sum of all step lengths, and absent for a single-row track |
| `TrajectoryAnalysis.RangeOf` | trajectory_analysis.py:159-161 | the printed [min, max] of a column holds every value and both ends are values of the column |
| `TrajectoryAnalysis.SpeedStatsOf` | trajectory_analysis.py:170-176 | speed statistics exist exactly for a non-empty list; then min <= mean <= max and every value lies within [min, max] |
| `TrajectoryAnalysis.PeakStatsOf` | trajectory_analysis.py:179-183 | mean and maximum exist exactly for a non-empty list; then mean <= max and max bounds every value |
| `TrajectoryAnalysis.Duration` | trajectory_analysis.py:151 | the duration is non-negative and at least the gap between any two timestamps |
| `TrajectoryAnalysis.SampleRate` | trajectory_analysis.py:155 | the rate is defined exactly for a non-zero duration, and rate times duration is the number of rows |
| `TrajectoryAnalysis.SummaryTimeAndPosition` | trajectory_analysis.py:150-161 | the summary counts the rows, derives the rate from count and duration, and its position ranges contain every row |
| `TrajectoryAnalysis.SummarySpeed` | trajectory_analysis.py:169-176 | speed statistics are reported exactly when some speed is defined; then min <= mean <= max and they bound every defined speed |
| `TrajectoryAnalysis.SummaryPeaks` | trajectory_analysis.py:178-196 | acceleration and angular-speed statistics are reported exactly when some value is defined; then mean <= max and max bounds every defined value |
| `TrajectoryAnalysis.DurationOfSortedTrack` | trajectory_analysis.py:151 | on a track sorted by time the duration is the last minus the first timestamp |
| `TrajectoryAnalysis.SummaryOfTrack` | trajectory_analysis.py:140-155 | the summary of a stored track counts its rows and spans its first to its last timestamp |
| `TrajectoryAnalysis.SummaryTotalDistance` | trajectory_analysis.py:163-166 | the reported total distance is the sum of the step lengths whether or not smoothing ran, and absent for a single row |
| `TrajectoryAnalysis.PresentHas` | trajectory_analysis.py:493 | a column is exported exactly when it is in the export list and in the combined dataframe |
| `TrajectoryAnalysis.PresentKeepsAll` | trajectory_analysis.py:485-493 | when every listed column exists, the whole list is exported in its order |
| `TrajectoryAnalysis.ExportSelection` | trajectory_analysis.py:473-494 | there is no export without results (pd.concat of nothing raises); otherwise exactly the listed columns that exist are selected |
| `TrajectoryAnalysis.ExportKeepsAllColumns` | trajectory_analysis.py:485-493 | for a file that passed load_data's column check, all 22 export columns are written in order |
| `TrajectoryAnalysis.TrajectoryAnalyzer.constructor` | trajectory_analysis.py:17-27 | with a required column missing nothing is stored; otherwise the key order is the ids in order of first appearance, the keys are the ids of the rows, and each holds its rows sorted by timestamp |
| `TrajectoryAnalysis.TrajectoryAnalyzer.LoadData` | trajectory_analysis.py:29-51 | returns the missing columns and then stores nothing; otherwise the store stays consistent, new ids are appended in order, each id of the file holds exactly its rows sorted by timestamp and other tracks are kept |
| `TrajectoryAnalysis.TrajectoryAnalyzer.StoreIds` | trajectory_analysis.py:44-47 | the loop over the ids stores each id's sorted rows and appends new ids to the key order |
| `TrajectoryAnalysis.TrajectoryAnalyzer.CalculateMetrics` | trajectory_analysis.py:53-131 | there is one result per requested id that is stored, unknown ids are skipped, and each result is the metrics of that id's track |
| `TrajectoryAnalysis.TrajectoryAnalyzer.PrintSummary` | trajectory_analysis.py:133-198 | one summary per requested stored marker, computed on the metrics with calculate_metrics' defaults |
| `TrajectoryAnalysis.SummarizeAll` | trajectory_analysis.py:146-196 | the loop yields one summary per listed id that has metrics, and each is the summary of those metrics |
| `Text.TrimStartCuts` | camera_calibration.py:422 | strip's leading cut removes only whitespace and stops at a non-space |
| `Text.TrimEndCuts` | camera_calibration.py:422 | strip's trailing cut removes only whitespace and stops at a non-space |
| `Text.StripCuts` | camera_calibration.py:422 | strip() returns a slice of the line with whitespace cut from both ends and non-space ends left |
| `Text.StripKeeps` | camera_calibration.py:422 | a line without whitespace at either end is returned unchanged by strip() |
| `Text.StripIdempotent` | camera_calibration.py:422 | stripping twice is stripping once |
| `Text.Split` | camera_calibration.py:516 | split('x') gives one part more than separators, no part holds one, and joining the parts back with 'x' restores the text |
| `Text.SplitJoin` | camera_calibration.py:516 | splitting a join of separator-free parts gives those parts back |
| `Text.ParseDecimal` | camera_calibration.py:516 | int() of the decimal form of every integer gives it back |
| `CameraCalibration.ObjectPointAt` | camera_calibration.py:30-34 | objp has w·h points and point k is ((k mod w)·s, (k div w)·s, 0) |
| `CameraCalibration.SizeOfFirstLoaded` | camera_calibration.py:157-183 | when any board was detected an image size was taken from the first image that loaded |
| `CameraCalibration.SampledFrames` | camera_calibration.py:214-228 | sampling every n-th frame keeps exactly frames 0, n, 2n, ..., ceil(frames/n) of them |
| `CameraCalibration.LiveStepCounts` | camera_calibration.py:324-350 | in one iteration the count rises by one for an auto-capture and one for SPACE with a board, each storing that frame's corners |
| `CameraCalibration.LiveKeys` | camera_calibration.py:340-355 | 'q' and only 'q' ends the loop; 'c' flips auto-capture and no other key changes it |
| `CameraCalibration.LiveStepGrowth` | camera_calibration.py:324-350 | one iteration never lowers the count and adds one corner set per capture |
| `CameraCalibration.LiveCounts` | camera_calibration.py:280-355 | over the whole loop the captured count equals the number of stored corner sets |
| `CameraCalibration.LiveCapturedBound` | camera_calibration.py:280-350 | the loop ends with at most one image more than the target |
| `CameraCalibration.LiveOvershoot` | camera_calibration.py:280-350 | the target can be exceeded: an auto-capture and a SPACE capture in the same iteration with target 1 give 2 images |
| `CameraCalibration.BlockEndCloses` | camera_calibration.py:422-423 | the skip loop stops at the first line whose stripped text ends with ']', or at the end of the file |
| `CameraCalibration.RewriteLineByLine` | camera_calibration.py:413-430 | without a CAMERA_MATRIX line every line keeps its place, DIST_COEFFS lines replaced and the others copied |
| `CameraCalibration.UnclosedBlock` | camera_calibration.py:418-423 | a matrix block never closed by ']' swallows the rest of the file |
| `CameraCalibration.StrayBracket` | camera_calibration.py:418-430 | for config.py's layout, whose matrix is followed by a lone "]" line, the matrix is replaced and the lone "]" stays |
| `CameraCalibration.MatrixLine` | camera_calibration.py:405-420 | the replacement matrix line starts with CAMERA_MATRIX, so it is found again by the next rewrite |
| `CameraCalibration.DistLine` | camera_calibration.py:410-426 | the replacement coefficient line starts with DIST_COEFFS |
| `CameraCalibration.QualityOf` | camera_calibration.py:472-479 | Excellent below 0.5, Good from 0.5 below 1.0, Acceptable from 1.0 below 2.0, Poor from 2.0, each band exactly |
| `CameraCalibration.QualityMonotone` | camera_calibration.py:472-479 | a larger error never gets a better band |
| `CameraCalibration.ParseCheckerboardDecimal` | camera_calibration.py:515-517 | every "WxH" written from two integers parses to that pair |
| `CameraCalibration.DefaultCheckerboard` | camera_calibration.py:497-517 | the default "9x6" gives a 9 by 6 board |
| `CameraCalibration.ParseCheckerboardThreeParts` | camera_calibration.py:515-521 | text with three 'x'-separated parts is refused |
| `CameraCalibration.CameraCalibrator.constructor` | camera_calibration.py:16-43 | the grid is built from the board size and square size, the point lists start empty and there is no calibration |
| `CameraCalibration.CameraCalibrator.AddCalibrationImage` | camera_calibration.py:67-88 | on a detected board the grid and the corners are appended together and the annotated copy returned; otherwise nothing changes and the image itself is returned |
| `CameraCalibration.CameraCalibrator.Calibrate` | camera_calibration.py:90-131 | success exactly when the solver's RMS is non-zero; then matrix, coefficients and error are the solver's, otherwise they are kept; the points are kept |
| `CameraCalibration.CameraCalibrator.AddAll` | camera_calibration.py:160-175 | feeding the views in order counts the detected boards and appends their corners, one grid per board |
| `CameraCalibration.CameraCalibrator.CalibrateFromImages` | camera_calibration.py:133-183 | no images fail at once; fewer than ten detected boards fail before the solver; otherwise the solver runs on the size of the first loaded image |
| `CameraCalibration.CameraCalibrator.CalibrateFromVideo` | camera_calibration.py:185-238 | an unopened video fails; a zero sample interval raises at the first frame read with nothing added; otherwise the sampled frames' boards are added and ten are needed before the solver runs |
| `CameraCalibration.CameraCalibrator.CalibrateLive` | camera_calibration.py:240-366 | an unopened camera fails; the capture loop's corners are added; ten captures are needed before the solver runs |
| `CameraCalibration.CameraCalibrator.CaptureLive` | camera_calibration.py:276-355 | the imperative loop captures exactly what the loop function describes and returns its count |
| `CameraCalibration.CameraCalibrator.LiveIteration` | camera_calibration.py:324-355 | one pass of the loop body makes the step the loop function describes |
| `CameraCalibration.CameraCalibrator.CaptureView` | camera_calibration.py:327-350 | a capture appends the frame's corners and one grid |
| `CameraCalibration.CameraCalibrator.SaveCalibration` | camera_calibration.py:368-387 | refused without a calibration; otherwise the archive holds matrix, coefficients, error and the board description |
| `CameraCalibration.CameraCalibrator.UpdateConfigFile` | camera_calibration.py:389-434 | without a calibration the file is left alone and false returned; otherwise the lines are the rewrite with the formatted matrix and coefficients |
| `CameraCalibration.CameraCalibrator.Results` | camera_calibration.py:448-486 | a report exists exactly when calibrated, with the error's quality band and the number of images |
| `CameraCalibration.LoadedOnly` | camera_calibration.py:160-168 | unreadable files are skipped, loaded ones kept in order |
| `CameraCalibration.SampleFrames` | camera_calibration.py:214-228 | the frames whose index is a multiple of the interval go on to detection, in order; a zero interval raises at the first frame, exactly when there is one |
| `CameraCalibration.RewriteLines` | camera_calibration.py:413-430 | the imperative line loop produces the rewrite function's lines |
| `CameraCalibration.RewriteAt` | camera_calibration.py:415-430 | one pass writes the line for lines[i] and moves past a matrix block's closing line |
| `GenerateCheckerboard.SquareColor` | generate_checkerboard.py:46-51 | a square is black exactly when i + j is even, white otherwise |
| `GenerateCheckerboard.SquareColors` | generate_checkerboard.py:43-51 | the top-left square is black and neighbouring squares always differ |
| `GenerateCheckerboard.PixelInSquare` | generate_checkerboard.py:47-51 | every pixel inside square (i, j) has that square's colour |
| `GenerateCheckerboard.Generate` | generate_checkerboard.py:11-53 | a negative board dimension raises (no image) exactly when the square size is positive; otherwise the image is (inner corners + 1 + 2·border) squares of sq pixels each way, and every pixel has the colour of the square it lies in |
| `GenerateCheckerboard.PaintRow` | generate_checkerboard.py:44-51 | one pass of the inner loop paints the black squares of row i and nothing else |
| `GenerateCheckerboard.PaintSquare` | generate_checkerboard.py:47-51 | the slice assignment blackens exactly the pixels of square (i, j) |
| `GenerateCheckerboard.AddLabels` | generate_checkerboard.py:69-76 | the result is 200 rows taller, white in the band and the gray board copied into three channels below it |
| `GenerateCheckerboard.Labels` | generate_checkerboard.py:80-94 | five label lines at x = 20, 35 pixels apart from y = 40, the first larger and bolder |
| `GenerateCheckerboard.LabelsInBand` | generate_checkerboard.py:73-94 | every label baseline lies inside the white band |
| `DictionarySurvey.Observed` | test_aruco_dictionaries.py:65-73 | one observation per sampled index, in sampling order |
| `DictionarySurvey.SeenCounts` | test_aruco_dictionaries.py:65-80 | frames with detection never exceed the frames sampled, and ids were seen exactly when some frame had a detection |
| `DictionarySurvey.SeenIds` | test_aruco_dictionaries.py:75-78 | an id is in the set exactly when some read frame detected it |
| `DictionarySurvey.FramesSeenPositive` | test_aruco_dictionaries.py:75-76 | the frame counter is positive exactly when some sampled frame had a detection |
| `DictionarySurvey.Rate` | test_aruco_dictionaries.py:84 | the rate times the sampled count is 100 times the frames detected, and lies in 0..100 |
| `DictionarySurvey.SortedIds` | test_aruco_dictionaries.py:82 | the listed ids are increasing, each once, and exactly the ids seen |
| `DictionarySurvey.IncreasingUnique` | test_aruco_dictionaries.py:82 | an increasing list is determined by its elements, so the sorted id list is unique |
| `DictionarySurvey.ResultFor` | test_aruco_dictionaries.py:57-88 | an entry exists exactly when setup did not raise and some frame had a detection; it holds the sorted ids, the frame count and the rate |
| `DictionarySurvey.ResultForPresent` | test_aruco_dictionaries.py:80-85 | with setup succeeding and a detected frame, the entry exists |
| `DictionarySurvey.ResultsListed` | test_aruco_dictionaries.py:54-88 | a result is listed exactly when it is some dictionary's entry, and there are no more results than dictionaries |
| `DictionarySurvey.InsertByRatePermutes` | test_aruco_dictionaries.py:112 | inserting keeps every entry and adds the new one once |
| `DictionarySurvey.InsertByRateDescending` | test_aruco_dictionaries.py:112 | inserting into a list ordered by rate keeps it ordered |
| `DictionarySurvey.RankDescending` | test_aruco_dictionaries.py:112 | the ranking is ordered by rate, highest first |
| `DictionarySurvey.RankPermutes` | test_aruco_dictionaries.py:112 | the ranking holds every result exactly as often as the results do |
| `DictionarySurvey.InsertByRateStable` | test_aruco_dictionaries.py:112 | inserting into the ranking puts an entry behind every entry already there with its rate, and keeps those in order |
| `DictionarySurvey.RankStable` | test_aruco_dictionaries.py:112 | the sort is stable: for every rate, the dictionaries with that rate appear in the ranking in the order the survey listed them |
| `DictionarySurvey.Best` | test_aruco_dictionaries.py:97-121 | there is a recommendation exactly when there are results |
| `DictionarySurvey.RankHeadMax` | test_aruco_dictionaries.py:112-121 | the recommended entry is a result with the highest rate |
| `DictionarySurvey.BestIsEarliestMaximum` | test_aruco_dictionaries.py:112-121 | the recommended entry is the first, in dictionary order, of those with the highest rate |
| `DictionarySurvey.SurveyDictionary` | test_aruco_dictionaries.py:62-78 | the loop over sampled frames yields exactly the ids seen and the count of frames with a detection |
| `DictionarySurvey.SurveyOne` | test_aruco_dictionaries.py:57-88 | the try block yields that dictionary's entry |
| `DictionarySurvey.SurveyAll` | test_aruco_dictionaries.py:56-88 | the loop over dictionaries yields the present entries in dictionary order |
| `DictionarySurvey.TestAllDictionaries` | test_aruco_dictionaries.py:41-126 | an unopenable video raises; otherwise the ranking is the sorted results and the recommendation its head |
| `DictionarySurvey.ArucoDictsDistinct` | test_aruco_dictionaries.py:21-39 | seventeen distinct dictionaries are tried |
| `VisualizeOnVideo.CubePoints` | visualize_on_video.py:90-99 | eight corners with coordinates 0 or size, the first four at z = 0 and each top corner above its base corner |
| `VisualizeOnVideo.CubeEdges` | visualize_on_video.py:108-125 | twelve edges between distinct corners among the eight |
| `VisualizeOnVideo.CubeEdgesListed` | visualize_on_video.py:108-125 | the edges drawn are 0-1, 1-2, 2-3, 3-0, 4-5, 5-6, 6-7, 7-4, 0-4, 1-5, 2-6, 3-7, in that order |
| `VisualizeOnVideo.CubeEdgesAreEdges` | visualize_on_video.py:89-125 | every drawn edge joins two corners that differ in exactly one coordinate |
| `VisualizeOnVideo.CubeEdgesDistinct` | visualize_on_video.py:108-125 | no edge is drawn twice, in either direction |
| `VisualizeOnVideo.CubeEdgesDegree` | visualize_on_video.py:108-125 | every corner lies on exactly three drawn edges |
| `VisualizeOnVideo.CubeEdgesComplete` | visualize_on_video.py:89-125 | every pair of corners differing in one coordinate is drawn: the wireframe is the whole cube |
| `VisualizeOnVideo.AxisPoints` | visualize_on_video.py:54-59 | the origin and one point at the given length along each axis; the three axes are mutually orthogonal and all of that length |
| `VisualizeOnVideo.Consumed` | visualize_on_video.py:221-257 | the frames written are at most one more than the frames counted, and no more than the video holds |
| `VisualizeOnVideo.ConsumedWithoutLiveView` | visualize_on_video.py:221-257 | without the live view every frame up to the first failed read is written and counted |
| `VisualizeOnVideo.Progress` | visualize_on_video.py:260-262 | the percentage of the written formula when the frame count is known, and no line otherwise |
| `VisualizeOnVideo.ProgressBounds` | visualize_on_video.py:260-262 | with a known frame count the progress lies in 0..100 up to the count and never goes down |
| `VisualizeOnVideo.ProgressLines` | visualize_on_video.py:257-262 | one progress line per multiple of 30 counted frames |
| `VisualizeOnVideo.ProgressLinesStep` | visualize_on_video.py:257-262 | counting one more frame adds a line exactly when the new count is a multiple of 30 |
| `VisualizeOnVideo.VideoOverlay.constructor` | visualize_on_video.py:14-34 | each camera parameter falls back to config.py on its own |
| `VisualizeOnVideo.VideoOverlay.CubeCorners` | visualize_on_video.py:86-99 | the cube has the given size, or the marker size when none is given |
| `VisualizeOnVideo.VideoOverlay.ProcessVideo` | visualize_on_video.py:186-269 | an unopenable video raises; otherwise the frames written and counted are those the loop reaches, and the progress lines are one per multiple of 30, computed with the corrected `Progress` of the Findings (see Left out) |
| `VisualizeOnVideo.ProgressCrashesWithoutFrameCount` | visualize_on_video.py:257-262 | a video reporting 0 frames but yielding 30 divides by zero at the first progress line |
| `LiveTracker.Processed` | live_tracker.py:164-191 | processing a frame never changes the recording flag, the start time or the frame count |
| `LiveTracker.Toggled` | live_tracker.py:319-325 | SPACE flips recording, and a recording always has a start time |
| `LiveTracker.ProcessedAppends` | live_tracker.py:164-191 | records are added exactly while recording with something detected, one per detected marker |
| `LiveTracker.ToggleStartsFresh` | live_tracker.py:319-325 | stopping keeps records and frame count; after a start the next frame is frame 1 and its records are stamped with the time since the start |
| `LiveTracker.ProcessConsistent` | live_tracker.py:172-191 | processing keeps the records' frame numbers ordered and bounded by the frame count |
| `LiveTracker.ToggleConsistent` | live_tracker.py:319-325 | toggling keeps the recorder consistent |
| `LiveTracker.Advance` | live_tracker.py:266-273 | every frame read counts once, and counts as detected exactly when it had ids |
| `LiveTracker.KeyHandled` | live_tracker.py:314-325 | only SPACE changes anything, and never the counters |
| `LiveTracker.RunCounts` | live_tracker.py:259-273 | at most one frame per tick is counted, and no more frames with detections than frames |
| `LiveTracker.TickConsistent` | live_tracker.py:259-325 | one frame keeps the recorder consistent whatever the key |
| `LiveTracker.RunConsistent` | live_tracker.py:259-331 | the recorder stays consistent through the whole loop |
| `LiveTracker.EmptySessionCrashes` | live_tracker.py:343 | a camera that opens but delivers no frame divides by zero in the summary |
| `LiveTracker.DetectionRate` | live_tracker.py:343 | the rate is in 0..100 and agrees with the written formula whenever a frame was read |
| `LiveTracker.LiveArucoTracker.constructor` | live_tracker.py:17-57 | the camera parameters fall back to config.py one by one, and nothing is recorded yet |
| `LiveTracker.LiveArucoTracker.ProcessFrame` | live_tracker.py:146-196 | detected says whether any marker was found, and the state is processed as Processed says |
| `LiveTracker.LiveArucoTracker.ToggleRecording` | live_tracker.py:319-325 | the state is toggled as Toggled says |
| `LiveTracker.LiveArucoTracker.SaveTrajectory` | live_tracker.py:198-218 | nothing is saved exactly when there are no records, and a failure is never reported; otherwise the nine-column header is written with one row per record that reads back as that record, in order |
| `LiveTracker.LiveArucoTracker.HandleTick` | live_tracker.py:260-325 | quit exactly on 'q'; the frame is counted and processed, and the key then handled |
| `LiveTracker.LiveArucoTracker.TrackFrames` | live_tracker.py:259-331 | the imperative loop ends in the state and counters the loop function describes |
| `LiveTracker.LiveArucoTracker.RunLiveTracking` | live_tracker.py:220-366 | an unopened camera changes nothing; otherwise the counters are the loop's, the reported rate is the corrected `DetectionRate` of those counters (see Left out), a non-empty recording is saved and, when asked for, animated with 300 frames |
| `VisualizeTrajectory.ColumnsOf` | visualize_trajectory.py:53-59 | the seven lists have one entry per row, each the row's field, in row order |
| `VisualizeTrajectory.GroupIsPerMarker` | visualize_trajectory.py:39-59 | a marker has an entry exactly when it occurs, and its columns hold exactly its rows in file order |
| `VisualizeTrajectory.GroupsWellFormed` | visualize_trajectory.py:42-59 | every entry has seven lists of that marker's row count, never empty |
| `VisualizeTrajectory.GroupsPartitionRows` | visualize_trajectory.py:39-66 | the entries' sizes add up to the number of rows |
| `VisualizeTrajectory.GroupKeys` | visualize_trajectory.py:42-51 | the keys are the ids listed in order of first appearance |
| `VisualizeTrajectory.LoadTrajectoryData` | visualize_trajectory.py:27-66 | the one-pass loop builds exactly the per-marker grouping, with keys in first-seen order |
| `VisualizeTrajectory.PathLengthNonNegative` | visualize_trajectory.py:117-118 | the total distance is never negative, and 0 for a single point |
| `VisualizeTrajectory.PathLengthGrows` | visualize_trajectory.py:117-118 | adding a point never shortens the path |
| `VisualizeTrajectory.StatsOf` | visualize_trajectory.py:110-119 | the printed point count is the marker's size and every printed range has min <= max |
| `VisualizeTrajectory.StatsFor` | visualize_trajectory.py:85-119 | statistics for the requested loaded markers only, missing ids skipped, each with its own point count |
| `VisualizeTrajectory.StatsForPresent` | visualize_trajectory.py:85-119 | the statistics are exactly one per loaded requested trajectory, in the same order |
| `VisualizeTrajectory.StatsForComplete` | visualize_trajectory.py:85-119 | every requested marker that is loaded has its statistics printed |
| `VisualizeTrajectory.Concat` | visualize_trajectory.py:253-255 | every value of every trajectory is among the concatenated values |
| `VisualizeTrajectory.Largest` | visualize_trajectory.py:257-261 | the largest of three extents is one of them and bounds all three |
| `VisualizeTrajectory.WithinAround` | visualize_trajectory.py:257-270 | a value lies within its axis's midpoint plus or minus any half-width of at least half the extent |
| `VisualizeTrajectory.CubeBoxContains` | visualize_trajectory.py:253-270 | the animation box is a cube that contains every value on every axis |
| `VisualizeTrajectory.MeanBoxMayExclude` | visualize_trajectory.py:129-141 | centring the static plot on the mean can leave a point outside the box: x values 0, 0, 0, 4 give limits -1 .. 3 |
| `VisualizeTrajectory.MeanBoxSingle` | visualize_trajectory.py:129-141 | with one marker the static box is centred on its means with half its largest extent as half-width |
| `VisualizeTrajectory.ShowPointsBounds` | visualize_trajectory.py:320-330 | the shown point count starts at 0, stays below the track length before the last frame and never decreases |
| `VisualizeTrajectory.AnimateTrackPrefix` | visualize_trajectory.py:317-345 | each frame shows a prefix of the path, shorter than the path, with the marker on its last point, and later frames show at least as much |
| `VisualizeTrajectory.Present` | visualize_trajectory.py:235-246 | every listed trajectory is a requested, loaded id with its data; none exactly when no requested id is loaded |
| `VisualizeTrajectory.PresentComplete` | visualize_trajectory.py:231-246 | every requested id that is loaded is listed with its data |
| `VisualizeTrajectory.PresentInRequestOrder` | visualize_trajectory.py:231-246 | the listed trajectories keep the request order: each earlier entry was requested before each later one |
| `VisualizeTrajectory.TrajectoryVisualizer.constructor` | visualize_trajectory.py:17-25 | the data is the per-marker grouping of the rows and the key order their first appearance |
| `VisualizeTrajectory.TrajectoryVisualizer.PlotStats` | visualize_trajectory.py:68-119 | no statistics without data; otherwise statistics for exactly the loaded requested markers, each of them included, one per marker in request order, with their sizes |
| `VisualizeTrajectory.TrajectoryVisualizer.PlotBoxMissingIdFails` | visualize_trajectory.py:129-137 | asking the static plot for a marker that is not loaded raises KeyError when the limits are computed |
| `VisualizeTrajectory.TrajectoryVisualizer.PlotBox` | visualize_trajectory.py:85-141 | with missing ids skipped, there is no box exactly when no requested id is loaded |
| `VisualizeTrajectory.TrajectoryVisualizer.PlotBoxAgrees` | visualize_trajectory.py:128-141 | when every requested id is loaded, the corrected box is the box as written |
| `VisualizeTrajectory.TrajectoryVisualizer.AnimationSetup` | visualize_trajectory.py:207-308 | nothing without data or without a loaded requested trajectory; otherwise the tracks are the loaded requested trajectories in request order, each of them included, well-formed, and int(fps·duration) frames |
| `VisualizeTrajectory.TrajectoryVisualizer.AnimationBoxContains` | visualize_trajectory.py:252-270 | every point of every animated trajectory lies inside the animation's box |
| `VisualizeTrajectory.TracksInCube` | visualize_trajectory.py:253-270 | every point of a trajectory lies inside the cube box around all trajectories' points |

## Left out

- OpenCV is represented by inputs and parameters rather than modelled:
  - marker detection and pose estimation;
  - `findChessboardCorners` and `cornerSubPix`;
  - `calibrateCamera` and `projectPoints`;
  - all drawing and `putText`.
  
  The mean reprojection error of camera_calibration.py:114-122 is therefore a number the solver parameter returns.
- `savgol_filter` itself is a length-preserving parameter. Its arithmetic and how it spreads NaN are not modelled.
- The standard deviation of the speed in the summary (trajectory_analysis.py:176) is not modelled, because it needs a square root of a float sum.
- Plotting is not modelled. This covers all matplotlib figures: `plot_position_vs_time` (visualize_trajectory.py:150-205), the plot functions of trajectory_analysis.py (lines 200-463) and `generate_full_report`. FFmpeg and Pillow encoding of animations is left out too. Of the plot functions, only the data each one selects is modelled.
- The command-line `main` functions are not modelled, apart from the `"WxH"` board-size parse of camera_calibration.py.
- File and CSV/npz input and output are not modelled, nor are file-existence checks or the glob of an image-path pattern (camera_calibration.py:143-147). Files are sequences of rows or lines handed in and returned.
- Float semantics are not modelled:
  - square roots are a parameter;
  - `np.degrees` is multiplication by the constant `DEGREES_PER_RADIAN`, the double nearest to `180 / pi`, in exact arithmetic;
  - `float32` casts are dropped;
  - number formatting in printed and written text is a `fmt` parameter;
  - displayed numbers are exact fractions.
- The checkerboard's `square_size_px` (generate_checkerboard.py:29) is an input.
- The evenly spaced frame indices of `np.linspace` in test_aruco_dictionaries.py:52 are an input.
- `str.strip` removes the ASCII and Latin-1 whitespace characters; Unicode whitespace beyond them is not modelled.
- Camera and video streams are finite sequences of events. Timing, frame rates and key presses are fields of those events rather than clocks and keyboards.
- The exception raised when the ArUco dictionary cannot be set up is a `fails` predicate on the setup only.
- `ArucoTracking.ArucoTracker.ProcessVideo` requires `FRAME_SKIP > 0`. In the source a zero value raises `ZeroDivisionError` in `frame_count % FRAME_SKIP`, and negative values are not meant to be used.
- `ArucoTracking.ArucoTracker.SaveTrajectory` does not model write errors: an exception from the CSV writer propagates in the source.
- `LiveTracker.LiveArucoTracker.SaveTrajectory` does not model write errors either, for the same reason.
- `CameraCalibration.CameraCalibrator.constructor` takes the board size as two `nat`s. `ParseCheckerboard` accepts a negative size such as "-9x6" (camera_calibration.py:516), and with it the object grid of camera_calibration.py:31-33 raises numpy's ValueError whenever the other size is not 0: a negative row count, or a grid that does not fit the rows. The model has no calibrator for such a board and does not model that error.
- `TrajectoryAnalysis.TrajectoryAnalyzer.LoadData` fixes one order among rows with equal timestamps, the stable one (file order), through `StoreTracks`; pandas' default `sort_values` at trajectory_analysis.py:46 does not promise stability, so in the source that order, and with it the metrics computed at a repeated timestamp, may differ.
- `TrajectoryAnalysis.TrajectoryAnalyzer.PrintSummary` states which tracks are reported. The row count and duration it prints are stated by `TrajectoryAnalysis.SummaryOfTrack`, and the printed text itself is not modelled.
- `VisualizeOnVideo.VideoOverlay.ProcessVideo` uses the corrected `VisualizeOnVideo.Progress` of the Findings, not the code as written. Where visualize_on_video.py:261 raises `ZeroDivisionError` (frame count 0, 30 or more frames), the model finishes the run with no percentage on those lines. For a negative frame count, where the source prints a negative percentage, the model also prints none.
- `LiveTracker.LiveArucoTracker.RunLiveTracking` uses the corrected `LiveTracker.DetectionRate` of the Findings, not the code as written. Where live_tracker.py:343 raises `ZeroDivisionError` (the camera opens but no frame is read), the model reports 0 % and goes on to the save and the animation of live_tracker.py:348-363.
- `CameraCalibration.Sampled` is defined only where the modulo of camera_calibration.py:222 does not raise. The raising case, a zero `sample_interval`, is the `raised` result of `CameraCalibration.SampleFrames` and `CameraCalibration.CameraCalibrator.CalibrateFromVideo`.
- `GenerateCheckerboard.Generate` takes the square size in pixels as a natural number; a negative one, which `int()` of a negative millimetre size would give, is not modelled.
- `GenerateCheckerboard.PhysicalSizeMm` computes the printed size of generate_checkerboard.py:145-146 and states no property beyond it.
- `TrajectoryAnalysis.FillNa` does not tell NaN from infinity: an undefined entry (`None`) stands for both. In pandas, a row with dt == 0 and movement is ±inf, and `fillna(0)` (trajectory_analysis.py:127) keeps it. The model turns it into 0.
- `TrajectoryAnalysis.Filtered` is defined everywhere only because of that. In the source, an infinite entry that reaches savgol spreads over the window.
- `TrajectoryAnalysis.SmoothingStep`'s "defined everywhere after smoothing" holds in the source only for tracks with no repeated timestamp where the marker moves, for the same reason.
- The `ValueError` savgol raises for a window too large or too small for its polynomial order is not modelled: `savgol` is a length-preserving parameter.
- `CameraCalibration.CameraCalibrator.Calibrate` leaves the case of zero collected views to the solver parameter. The OpenCV solver raises there.

## Findings

| source | as written | input that shows it | evidently intended | confidence | as-written member | corrected member |
|---|---|---|---|---|---|---|
| visualize_trajectory.py:129-137 | `plot_3d_trajectory` wraps its `marker_id` argument into the one-element list `marker_ids` (line 85). The drawing loop skips that id with a warning when it is not in the data, but the axis limits then index `self.data[m]` for it, which raises `KeyError` | a `marker_id` argument that is not a marker of the CSV | after the warning, no axis limits (nothing to frame), as the drawing loop already skips the id | not executed | `VisualizeTrajectory.TrajectoryVisualizer.PlotBoxMissingIdFails` | `VisualizeTrajectory.TrajectoryVisualizer.PlotBox` |
| live_tracker.py:343 | the detection rate divides `markers_detected_count` by `total_frames`, which raises `ZeroDivisionError` when no frame was read | the camera opens but the first `read()` fails, so `total_frames` is 0 | a rate of 0 % for an empty session, always between 0 and 100 | not executed | `LiveTracker.EmptySessionCrashes` | `LiveTracker.DetectionRate` |
| visualize_on_video.py:261 | every 30th frame the progress line divides by `total_frames`, which raises `ZeroDivisionError` when the container reports a frame count of 0 | a stream whose `CAP_PROP_FRAME_COUNT` is 0 and that yields 30 or more frames | no percentage (or 0 %) when the frame count is unknown | not executed | `VisualizeOnVideo.ProgressCrashesWithoutFrameCount` | `VisualizeOnVideo.Progress` |
