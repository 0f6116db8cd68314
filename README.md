# ChessRobot board tracking, move inference and robot control — a Dafny model

ChessRobot plays chess against a person on a physical board. An overhead
camera films the board, the board's corners are located, and the picture is
warped to a square. The 64 cells' colours are then compared with a
baseline to infer which two squares changed: that pair is the move, and it
updates a logical 8×8 board of piece codes (`"WP"`, `"BK"`, `""`). Around this
sit an Arduino chess clock, whose serial lines are parsed into remaining
times, a robot arm, which receives one command per piece it must carry, a
terminal board display and a small monitoring web server.

This project models that core in Dafny and proves what the code promises:

- **The logical board and notation** (`Board`, `Notation`).
  - `update_chess_pieces` works in place on an `array2<string>` and is proved against the value function `Relocate`.
  - Square names follow section 8.2.3.1 of the PGN Standard ("a8" at the top-left).
  - Piece letters follow the Forsyth–Edwards piece placement of section 16.1.3.1 of the PGN Standard.
  - Also modelled: the three-way move string and the turn toggle.
- **Change detection and move resolution** (`Colour`, `Ranking`, `Resolve`, `Turns`, `Detector`, `Streams`).
  - Per-channel detrending, which makes the deltas zero-mean.
  - The adaptive threshold `max(3, μ + 0.75σ)`.
  - Ranked candidates, and the pair scoring with its top-two fallback.
  - The `_pair_moves` and `_fallback_pair_moves` variants.
  - Top-k-above-threshold highlights and EMA smoothing.
  - Multi-frame averaging.
  - The turn transitions of the Flask servers and of the `brain` package.
- **Board localisation** (`Geometry`, `Stabilizer`, `Corners`, `CellGeometry`, `Manual`).
  - Both corner-ordering schemes: sum/difference ranking and y-then-x sorting.
  - The shoelace area and `is_valid_quad`.
  - `CornerStabilizer` as a class, proved against the pure step `Next`.
  - The hold of the last good corners, as a class `CornerHold`.
  - Centroid de-duplication and the corner finders' count rules.
  - Cell-grid arithmetic.
  - The manual-corner store.
- **Peripheral cores** (`Timers`, `Signals`, `Robot`, `Display`, `Monitor`, `MoveAnalyzer`, `PositionAnalyzer`, `PlayerInput`, `CvGame`, `Chess`, `Text`).
  - Clock-line parsing, `format_time` and the `TimerManager` state.
  - Time-over and button checks.
  - Robot command generation and the `RobotArm` state guards.
  - Move-type naming and the evaluation line.
  - The monitor's state dictionary.
  - The coordinate validators and move analysers.

The same logic is copied, with small differences, into many files of the
repository. Each piece is modelled once, with the differences as parameters:

| parameter | values |
|---|---|
| de-duplication radius | 15 px, 10 px, 8 px |
| threshold comparison | strict `>` or `>=` |
| a rejected jump resets `good_run` | only in `mjpg/warp_cam_picam2.py` |
| hold length | 20 frames, or 15 in `CV/warp_cam_picam2.py` |
| stabiliser settings | per copy |

A row in the table below cites one copy. The same rule also covers the
other copies:

- `CV/warp_cam_picam2_v2.py`
- `CV/warp_cam_picam2.py`
- `mjpg/warp_cam_picam2.py`
- `brain/cv/picam_stable.py`
- `mjpg/warp_chessboard.py`
- `CV/warping_utils.py`
- `ChessRobot/webcam_warp_streaming_server.py`
- `ChessRobot/chessboard_warp.py`
- `CV/chessboard_warp_image.py`
- the two `cv_manager.py` files

Some things are parameters of the model rather than parts of it:

- **The camera.** Frames are read from a given sequence of read outcomes.
- **cv2.** Colour conversion, warping and contour extraction appear through their outputs: per-cell colour grids, centroid lists and contour areas.
- **Euclidean norms.** They are function-typed parameters, and their non-negativity is the only fact used.
- **python-chess legality.** It is a given predicate.
- **The clock.** It is a text parameter `now`.
- **Serial replies and exceptions.** They are `Fetched` outcomes: a value, or `Threw`.

Colour values and scores are `real`, so the model has no floating-point
rounding. Python's `round` is modelled exactly, as round-half-to-even.

Three behaviours of the code are worth stating outright:

- `next_turn` in `CV/main.py` and `mjpg/main.py` toggles the turn before
  its error returns. A failed request therefore still swaps the mover
  (`Turns.FailedRequestSwapsMover`).
- Only `mjpg/warp_cam_picam2.py` resets `good_run` on a rejected jump. The
  other copies of the stabiliser leave it as it was.
- The validators in `brain/game/move_analyzer.py` and `brain/chess_analyzer.py`
  lower-case the file letter, but the square parser they hand it to does
  not (`Notation.ValidButUnparsable`).

## Model

| member | source | states |
|---|---|---|
| Board.Relocate | CV/piece_auto_update.py:3-23 | the update keeps the board's shape (same rows, same row lengths) |
| Board.RelocateForward | CV/piece_auto_update.py:11-15 | first square occupied and second empty: the second square gets the first square's piece and the first becomes '' |
| Board.RelocateBackward | CV/piece_auto_update.py:16-20 | first square empty and second occupied: the piece moves to the first square and the second becomes '' |
| Board.RelocateAmbiguous | CV/piece_auto_update.py:21-22 | both or neither square occupied, one square named twice included: the board is unchanged |
| Board.RelocateFrame | CV/piece_auto_update.py:3-23 | no square other than the two detected ones changes |
| Board.RelocateKeepsPieces | CV/piece_auto_update.py:9-22 | the multiset of codes on the board (empty squares included) is the same before and after: no piece is created or destroyed |
| Board.RelocateUndo | CV/piece_auto_update.py:9-20 | when exactly one square was occupied, applying the update a second time restores the original board |
| Board.UpdateChessPieces | CV/piece_auto_update.py:3-23 | the array is updated in place to the board `Relocate` describes, and the very same array is returned |
| Board.DefaultChessPieces | brain/cv/cv_detection.py:16-26 | the default board is 8 rows of 8 squares |
| Board.DefaultLayout | brain/cv/cv_detection.py:16-26 | rows 0 and 7 hold black's and white's back ranks in the order R N B Q K B N R, rows 1 and 6 the pawns, rows 2-5 are empty |
| Board.LoadChessPieces | brain/cv/cv_detection.py:29-39 | the loaded board is used only when it is a list of 8 rows; an unreadable file or any other value gives the default board; the result always has 8 rows |
| CellGeometry.MarginSmall | CV/piece_recognition.py:38-39 | the margin `int(cs * 0.08)` is at most 8% of the cell, so two margins leave at least one pixel of a non-empty cell |
| CellGeometry.SplitSizes | CV/piece_recognition.py:35-40 | cell sizes and margins are never negative |
| CellGeometry.SplitSizesSpec | CV/piece_recognition.py:35-40 | the grid of `h // grid` x `w // grid` cells covers the image up to less than one cell per side, and a non-empty cell keeps a non-empty core after both margins |
| CellGeometry.CellRegionInBounds | CV/piece_recognition.py:43-52 | for any indices and sizes, the clamped region is non-empty and lies inside an image of at least one pixel |
| CellGeometry.CellRegionInsideCell | brain/piece_detector.py:84-95 | for a grid cell of an image at least one pixel per cell, clamping changes nothing: the region is the cell minus its margins, inside the cell |
| CellGeometry.CellRectsTile | CV/video_streams.py:48-52 | the 64 cell rectangles lie inside the `8*cs_h` x `8*cs_w` image and no two distinct cells share a pixel |
| CellGeometry.Pixels | CV/video_streams.py:51-52 | the flattened cell holds one colour per pixel of the rectangle |
| CellGeometry.PixelsAt | CV/video_streams.py:51-52 | pixel (dy, dx) of the rectangle is entry `dy*w + dx` of the flattened cell: exactly the rectangle is read, row by row |
| CellGeometry.CellCenterInside | CV/video_streams.py:54-59 | the centre is `(j*cs_w + cs_w//2, i*cs_h + cs_h//2)` and lies inside its non-empty cell |
| CellGeometry.PlayableSpec | brain/cv/picam_stable.py:191-202 | the squares listed are numbered 1, 2, ... by position, all on cells of the requested parity inside the grid, each centred in its cell, in row-major order |
| CellGeometry.PlayableCount | brain/cv/picam_stable.py:195-201 | on a grid of 2g columns each complete row contributes exactly g squares, for either parity |
| CellGeometry.ThirtyTwoSquares | brain/cv/picam_stable.py:191-202 | on the 8 x 8 board exactly 32 squares are numbered |
| CellGeometry.PlayableSquareCenters | brain/cv/picam_stable.py:191-202 | the nested row and column loops with a running index build exactly the list `Playable` specifies |
| Colour.Deltas | mjpg/main.py:616 | each delta added back to the baseline gives the current cell colour |
| Colour.Detrend | mjpg/piece_recognition.py:51-53 | detrending keeps one delta per cell |
| Colour.SumShift | mjpg/piece_recognition.py:51-53 | subtracting one constant vector from every cell moves the channel sums by that vector times the cell count |
| Colour.DetrendZeroMean | mjpg/piece_recognition.py:51-53 | after detrending, each of the three channels sums to zero over the cells |
| Colour.DetrendRemovesUniformShift | mjpg/main.py:616-618 | a change that moves every cell by the same colour leaves the detrended deltas exactly as they were |
| Colour.DetrendIdempotent | mjpg/piece_recognition.py:51-53 | detrending already detrended deltas changes nothing |
| Colour.Norms | mjpg/main.py:619 | one norm per cell, the norm of that cell's delta |
| Colour.DetrendedNorms | brain/cv/cv_manager.py:340-345 | the ranked norms cover all 64 cells |
| Colour.NoBaselineAllZero | mjpg/main.py:605-619 | with no stored baseline the current board is its own baseline: every delta is zero and every norm is the norm of zero |
| Colour.BlendBetween | CV/piece_recognition.py:162 | with a weight in [0, 1] the smoothing step lies between the new and the old value, and equals them when they agree |
| Colour.EmaMeans | CV/piece_recognition.py:159-162 | the first frame copies the cell means; later frames blend `alpha * means + (1 - alpha) * ema` cell by cell and channel by channel |
| Colour.EmaMeansSteady | mjpg/piece_recognition.py:111-114 | a board that does not change is a fixed point of the smoothing |
| Colour.EmaDiffs | CV/piece_recognition.py:164-169 | the first frame uses the raw diffs; later frames blend each diff with the previous smoothed one |
| Colour.EmaDiffsBetween | CV/video_streams.py:166-170 | each smoothed diff lies between the new diff and the previous smoothed diff |
| Colour.CellDiffs | CV/piece_recognition.py:164 | one diff per cell: the norm of that cell's smoothed mean minus its baseline |
| Colour.Captured | mjpg/main.py:206-209 | the capture loop reads at most `n` frames and none for `n <= 0` |
| Colour.CapturedExact | mjpg/main.py:206-209 | the number of frames consumed is exactly the leading run of successful reads, cut at `n` |
| Colour.CapturedPrefix | mjpg/main.py:206-209 | every frame counted was a successful read |
| Colour.CaptureAvgBoard | mjpg/main.py:201-224 | the loop stops at the first failed read, gives nothing when no frame was read, and otherwise the mean of the grids read and the last warp |
| Colour.SumOfCopies | mjpg/main.py:219-224 | accumulating `k` copies of one grid gives that grid scaled by `k` |
| Colour.AverageOfStillBoard | mjpg/main.py:201-224 | when every captured frame shows the same cell means, the average is those means |
| Notation.NotationOnBoard | CV/main.py:82-86 | on the board the name has two characters, file `'a' + j` and rank `8 - i`; (0,0) is "a8" and (7,7) is "h1" |
| Notation.NotationInjective | brain/piece_detector.py:97-101 | two board cells with the same name are the same cell |
| Notation.ParseNotation | brain/game/move_analyzer.py:55-56 | parsing the name of cell (i, j) gives square index `(7 - i) * 8 + j`, and naming that index gives the name back |
| Notation.ValidSquareIsName | brain/game/move_analyzer.py:74-82 | a square accepted by the validator with a lower-case file is exactly the name of one of the 64 cells |
| Notation.ValidButUnparsable | brain/chess_analyzer.py:221-229 | among validated squares, the ones square parsing rejects are exactly those with an upper-case file |
| Notation.InputCoordinateVersusSquare | brain/player_input.py:50-53 | on two characters the keyboard check accepts exactly what the analyser's check accepts, minus upper-case files |
| Notation.PieceToFen | CV/main.py:88-94 | "" for a code shorter than two; "?" for an unknown colour letter or kind; the kind upper-cased for 'W' and lower-cased for 'B' |
| Notation.FenRoundTrip | CV/main.py:88-94 | on the twelve piece codes, the letter determines the code: reading the letter back gives the code |
| Notation.ColorPieceMatchesFen | CV/main.py:96-97 | a piece code is white exactly when its letter is upper case, black exactly when lower case, and no other colour name matches |
| Notation.NextTurnColor | CV/main.py:374-375 | the next colour is white or black, and black exactly when the current one is white |
| Notation.ToggleTwice | CV/main.py:374-375 | toggling twice restores the turn and once always changes it |
| Notation.MoveStringDescribesUpdate | CV/main.py:494-505 | the logged text, computed on the board before the update, names the piece, the square it left (now empty) and the square it reached; the "?" form exactly when the board was left unchanged |
| Ranking.ArgsortDesc | CV/main.py:418 | the order has one entry per cell, each a valid cell index |
| Ranking.InsertRanked | CV/main.py:418 | inserting a new, higher index after every entry of at least its value keeps the order descending |
| Ranking.SortPrefixRanked | CV/main.py:418 | the indices `0 .. n-1` come out in descending order of value, ties by index |
| Ranking.ArgsortRanked | CV/main.py:418 | `argsort(-x)` is a permutation of the cell indices in descending order of value, ties by ascending index |
| Ranking.TopTwo | brain/cv_manager.py:251-262 | the first entry holds the maximum (the first index holding it) and the second the maximum of the other cells, at a different index |
| Ranking.AboveMembers | mjpg/piece_recognition.py:57 | the filter keeps exactly the entries whose value passes the threshold (`>` or `>=`) |
| Ranking.AboveAppend | mjpg/piece_recognition.py:57 | filtering a concatenation is concatenating the filtered parts |
| Ranking.AboveIsPrefix | CV/piece_recognition.py:179-192 | in a descending order the cells that pass the threshold form a prefix, and the next cell does not pass |
| Ranking.PairMovesIsTopPair | mjpg/piece_recognition.py:55-60 | `_pair_moves` yields a pair exactly when two distinct cells lie strictly above the threshold, and that pair is then the two highest cells, highest first |
| Ranking.FirstPair | brain/cv/cv_manager.py:51-53 | at most one pair, made of the first two candidates |
| Ranking.LeadingQualify | CV/video_streams.py:181-186 | the first `CountAbove` cells of the order pass the threshold, the next one does not, and the filtered order is exactly that prefix |
| Ranking.FallbackCandidatesTop | brain/cv/cv_manager.py:38-53 | the candidates of `_fallback_pair_moves`, with their top-two fallback, always begin with the two highest cells |
| Ranking.Capped | brain/cv/cv_manager.py:44-45 | the capped list is a prefix of at most `n` entries |
| Ranking.CollectCandidates | brain/cv/cv_manager.py:41-45 | the loop collects the cells at or above the threshold in descending order and stops once it holds four |
| Ranking.FallbackPairMoves | brain/cv/cv_manager.py:33-54 | `[]` for empty norms, otherwise at most one pair `(candidates[0], candidates[1])`, which is always the two highest cells, highest first |
| Ranking.TopAbove | CV/piece_recognition.py:179-192 | the highlight loop picks exactly the leading `min(k, number of cells at or above the threshold)` cells of the descending order |
| Ranking.PicksSpec | CV/piece_recognition.py:179-192 | at most `k` picks, each at or above the threshold, in descending order; when fewer than `k` were picked, every cell at or above the threshold was picked |
| Resolve.CellPosOnBoard | CV/main.py:422 | index `idx` in 0..63 decodes to the board square `(idx // 8, idx % 8)`, which encodes back to `idx` |
| Resolve.CellPosInjective | mjpg/main.py:624-626 | distinct cell indices decode to distinct squares |
| Resolve.ThresholdFloor | CV/main.py:411-414 | the adaptive threshold is never below 3.0 nor below mean + 0.75 * std, and equals one of the two |
| Resolve.QuietBoardThreshold | CV/main.py:411-414 | when no cell changed the threshold is exactly 3.0 |
| Resolve.ChromaDeviation | CV/main.py:409 | one deviation per cell: the norm of the a,b part of the cell's change, lightness ignored |
| Resolve.Candidates | CV/main.py:421-422 | six candidates are taken |
| Resolve.CandidatesDescending | CV/main.py:417-422 | the candidates are six distinct board squares, each carrying its own cell's deviation, in descending order of deviation |
| Resolve.RankedEarlier | CV/main.py:418 | in a descending order an entry of larger value sits earlier |
| Resolve.CandidatesDominate | CV/main.py:417-422 | every cell that changed more than the last candidate is a candidate |
| Resolve.ScoreFavoursMoverToEmpty | CV/main.py:436-444 | with a mover's piece on one square and the other empty, moving onto the empty square outscores the reverse unless the empty square changed by 15 or more beyond the occupied one |
| Resolve.PairTries | CV/main.py:453-457 | a pair is scored in both directions or, when both deviations are below the threshold, not at all |
| Resolve.Step | CV/main.py:458-461 | after a step there is always a running best |
| Resolve.BestIsFirstMaximum | CV/main.py:456-461 | the kept try has the greatest score, and is the first one reaching it (every earlier try scores strictly less); there is none only when nothing was scored |
| Resolve.BestSnoc2 | CV/main.py:456-461 | scoring both directions of a pair folds the two tries into the running best in order |
| Resolve.ScanRow | CV/main.py:449-461 | the inner loop folds the tries of pairs (a, a+1), ..., (a, 5) into the running best |
| Resolve.BestPair | CV/main.py:447-461 | the nested candidate loop ends with the running best over all tries in loop order |
| Resolve.RowTriesFrom | CV/main.py:449-452 | every try of an inner loop comes from a candidate pair (a, b) with a < b, in one direction or the other |
| Resolve.AllTriesFrom | CV/main.py:447-452 | every try of the nested loop comes from a pair of distinct candidate positions |
| Resolve.QuietRows | CV/main.py:453-454 | with every candidate below the threshold, nothing is scored |
| Resolve.QuietRow | CV/main.py:453-454 | an inner loop over candidates all below the threshold scores nothing |
| Resolve.LoudFirstRow | CV/main.py:453-457 | when the top candidate reaches the threshold, the first inner loop scores a pair |
| Resolve.LoudAll | CV/main.py:447-457 | when the top candidate reaches the threshold, something is scored |
| Resolve.ScoredMoveDistinct | CV/main.py:464-471 | the resolved source and destination are two distinct board squares, so the same-square penalty never decides |
| Resolve.ScoredIffLoud | CV/main.py:447-464 | some pair is scored exactly when some cell's deviation reaches the threshold |
| Resolve.ScoredMoveChoice | CV/main.py:464-471 | the top-two fallback is used exactly when nothing was scored; otherwise the move is a try of greatest score, the first one found |
| Resolve.PickPairs | mjpg/main.py:622 | either picker proposes at most one pair |
| Resolve.PickedMoveIsTopTwo | mjpg/main.py:622-634 | with either picker and any threshold, source and destination are the two highest-norm cells, highest first: distinct board squares, and no other cell exceeds the destination |
| Geometry.ArgMin | CV/main.py:72-74 | `np.argmin`: an index holding the smallest key, and the first such index |
| Geometry.ArgMax | CV/main.py:73-75 | `np.argmax`: an index holding the largest key, and the first such index |
| Geometry.OrderCorners | CV/main.py:59-77 | four corners, each one of the inputs: TL of least x+y, BR of greatest x+y, TR of least y-x, BL of greatest y-x |
| Geometry.OrderPoints | CV/chessboard_warp_image.py:25-33 | the slot-by-slot fill of a fresh 4x2 array gives the same [TL, TR, BR, BL] order |
| Geometry.ShoelaceTerms | warp_cam_picam2_stable_v2.py:45-46 | one shoelace term per vertex |
| Geometry.PolyArea | warp_cam_picam2_stable_v2.py:44-46 | the area is never negative |
| Geometry.Rotate | warp_cam_picam2_stable_v2.py:46 | rolling the vertices keeps the same points |
| Geometry.PolyAreaRotate | warp_cam_picam2_stable_v2.py:44-46 | the area does not depend on which vertex the polygon starts from |
| Geometry.RectangleArea | brain/cv/picam_stable.py:30-32 | an axis-aligned w x h rectangle listed corner by corner has area w*h |
| Geometry.QuadCheck | warp_cam_picam2_stable_v2.py:48-66 | each verdict holds exactly when its test is the first to fail: no corners, not four points, area below the minimum, zero width or height, ratio outside [ar_min, ar_max]; accepted otherwise |
| Geometry.QuadCheckMonotone | brain/cv/picam_stable.py:34-46 | a larger minimum area or a narrower aspect window only rejects more quads |
| Geometry.AcceptedQuadIsProper | CV/warp_cam_picam2.py:47-65 | an accepted quad has at least the minimum area and positive mean width and height |
| Geometry.InsertRowMajor | warp_cam_picam2_stable_v2.py:98 | inserting into a (y, x)-sorted list keeps it sorted and adds exactly that point |
| Geometry.SortRowMajor | warp_cam_picam2_stable_v2.py:98 | `sorted` by (y, x) gives a sorted permutation |
| Geometry.SortPairByX | warp_cam_picam2_stable_v2.py:99-100 | two points ordered by x, keeping the given order on equal x |
| Geometry.InsertByX | warp_cam_picam2_stable_v2.py:100 | inserting a point into an x-sorted list keeps it sorted and adds exactly that point, ahead of points with the same x (a stable sort) |
| Geometry.SortByX | warp_cam_picam2_stable_v2.py:100 | `sorted` by x gives an x-sorted permutation |
| Geometry.SortByXPair | warp_cam_picam2_stable_v2.py:99-100 | on two points the stable sort by x is the pair comparison, so the top and bottom rows are sorted alike |
| Geometry.SortCornersByPosition | warp_cam_picam2_stable_v2.py:97-101 | from four or more points, four corners come out |
| Geometry.SortCornersSelects | brain/cv/picam_stable.py:48-52 | from four or more points, the corners are drawn from the points: the top row is the first two in (y, x) order, left to right; the bottom row, listed right to left, is the two left-most of the remaining points |
| Geometry.RowsPermute | warp_cam_picam2_stable_v2.py:99-101 | sorting each row by x and listing the bottom row right to left only permutes the points |
| Geometry.RowsSeparate | warp_cam_picam2_stable_v2.py:98-100 | both points of the top row precede both points of the bottom row in (y, x) order |
| Geometry.SortCornersSpec | warp_cam_picam2_stable_v2.py:97-101 | the result is a permutation of the input; both top corners precede both bottom corners in (y, x) order; the top row runs left to right and the bottom row is listed right to left |
| Geometry.SortCornersIdempotent | brain/cv/picam_stable.py:48-53 | sorting corners that were already sorted changes nothing |
| Geometry.SortedRowMajorUnique | warp_cam_picam2_stable_v2.py:98 | two (y, x)-sorted lists of the same points are equal, so the first sort fixes the order whatever the input order |
| Stabilizer.MedianSplits | warp_cam_picam2_stable_v2.py:85 | at least half of the sample lies at or above the median and at least half at or below it |
| Stabilizer.MedianOfConstant | warp_cam_picam2_stable_v2.py:85 | the median of a constant sample is that constant |
| Stabilizer.Xs | warp_cam_picam2_stable_v2.py:85 | one x coordinate per stored corner set |
| Stabilizer.Ys | warp_cam_picam2_stable_v2.py:85 | one y coordinate per stored corner set |
| Stabilizer.MedianQuad | warp_cam_picam2_stable_v2.py:85 | the coordinate-wise median of the history is again four corners |
| Stabilizer.MedianQuadOfConstant | warp_cam_picam2_stable_v2.py:85 | a history holding one corner set throughout has that set as its median |
| Stabilizer.Blend | warp_cam_picam2_stable_v2.py:86 | the EMA step gives four corners |
| Stabilizer.BlendSame | warp_cam_picam2_stable_v2.py:86 | blending a corner set with itself leaves it unchanged, whatever the weight |
| Stabilizer.Push | warp_cam_picam2_stable_v2.py:68 | appending to a deque of `maxlen` entries keeps the last `maxlen` entries of the history plus the new one, ending with the new one |
| Stabilizer.NextKeepsWf | warp_cam_picam2_stable_v2.py:76-87 | every update keeps the history bounded by `hist_len` and made of four-corner sets, the EMA present once something was accepted, and `good_run <= need_good` |
| Stabilizer.RejectedCandidate | warp_cam_picam2_stable_v2.py:77-79 | a missing or mis-shaped candidate zeroes `good_run`, keeps history and EMA, and makes `get` return None |
| Stabilizer.JumpIgnored | mjpg/warp_cam_picam2.py:47-51 | a candidate more than `max_jump` from the EMA changes neither history nor EMA; only the mjpg copy also zeroes `good_run` |
| Stabilizer.AcceptedCandidate | warp_cam_picam2_stable_v2.py:83-86 | an accepted candidate is pushed onto the bounded history, `good_run` becomes `min(need_good, good_run + 1)`, and the EMA is set |
| Stabilizer.FirstAcceptSetsEma | warp_cam_picam2_stable_v2.py:85-86 | the first accepted corner set becomes the EMA unchanged |
| Stabilizer.SteadyCorners | warp_cam_picam2_stable_v2.py:80-86 | once history and EMA both hold one corner set, feeding that set again changes neither |
| Stabilizer.Feed | warp_cam_picam2_stable_v2.py:76-87 | any sequence of updates keeps the stabiliser's invariant |
| Stabilizer.ReadyAfterRun | warp_cam_picam2_stable_v2.py:84-94 | `good_run` counts consecutive accepted candidates up to `need_good`; after `need_good` of them in a row `get` returns the EMA |
| Stabilizer.CornerStabilizer.constructor | warp_cam_picam2_stable_v2.py:67-73 | a new stabiliser has an empty history, no EMA and `good_run = 0` |
| Stabilizer.CornerStabilizer.Update | warp_cam_picam2_stable_v2.py:76-94 | `update` moves the fields to the state `Next` gives, keeps the invariant, and returns what `get` returns |
| Stabilizer.HoldFresh | mjpg/piece_recognition.py:27-36 | a stable result is used, remembered and restarts the counter; anything used is the stable result or the last good one; the counter never passes the hold length |
| Stabilizer.Misses | mjpg/piece_recognition.py:33-35 | one output per frame without a stable result |
| Stabilizer.HoldExpires | mjpg/piece_recognition.py:33-36 | without a stable result, the last good corners are reused while the counter is below the hold length (20, or 15 in CV/warp_cam_picam2.py), and None comes after that |
| Stabilizer.CornerHold.constructor | mjpg/video_streams.py:51-53 | the hold starts with no corners and a zero counter |
| Stabilizer.CornerHold.Use | mjpg/video_streams.py:55-70 | one frame of the hold updates the last corners and counter as `HoldNext` says and returns the corners it uses |
| Stabilizer.Screen | mjpg/piece_recognition.py:22-26 | a raw quad passes through exactly when it is a valid quad; otherwise the stabiliser sees None |
| Stabilizer.SafeFindCorners | mjpg/piece_recognition.py:20-37 | `_safe_find_corners`: the stabiliser is updated with the screened quad, and the hold with the stabiliser's output |
| Corners.Areas | warp_cam_picam2_stable_v2.py:119 | one area per contour |
| Corners.Largest | warp_cam_picam2_stable_v2.py:119 | no more contours than were given |
| Corners.LargestSpec | warp_cam_picam2_stable_v2.py:119 | `sorted(..., reverse=True)[:n]` keeps `min(n, count)` input contours, largest first, and no dropped contour is larger than a kept one |
| Corners.Centres | warp_cam_picam2_stable_v2.py:121-131 | no more centres than contours |
| Corners.CentresSpec | warp_cam_picam2_stable_v2.py:122-131 | a point is a centre exactly when some contour of at least the minimum area with non-zero `m00` has it as centroid |
| Corners.DedupFromSpec | warp_cam_picam2_stable_v2.py:137-140 | continuing the de-duplication from a separated prefix keeps that prefix, stays separated, takes only input centres and covers the rest |
| Corners.DedupSpec | warp_cam_picam2_stable_v2.py:137-141 | the kept centres are pairwise farther apart than the radius (15, 10 or 8 by copy), come from the input, start with the first centre, and every dropped centre lies within the radius of a kept one |
| Corners.AllFar | warp_cam_picam2_stable_v2.py:138 | the check over the kept centres answers true exactly when the centre lies farther than the radius from every kept one (`FarFromAll`) |
| Corners.DedupCentres | warp_cam_picam2_stable_v2.py:137-141 | the append loop computes exactly `Dedup` |
| Corners.Arrange | warp_cam_picam2_stable_v2.py:146 | four points are ordered into four corners |
| Corners.TopFour | warp_cam_picam2_stable_v2.py:164-165 | four centres are selected |
| Corners.TopFourSpec | warp_cam_picam2_stable_v2.py:153-166 | with more than four centres, four different centres are selected and no unselected centre has a larger mask count than the last selected |
| Corners.FindCorners | warp_cam_picam2_stable_v2.py:103-172 | a finder returns four corners or nothing |
| Corners.FindCornersSpec | warp_cam_picam2_stable_v2.py:145-172 | corners are found exactly when four centres survive, or more than four and the finder reduces them (top four by mask or a four-point box); four survivors come back as a reordering of themselves |
| Corners.BoxCorners | warp_cam_picam2_stable_v2.py:284-289 | a box gives four corners |
| Corners.SpanBox | warp_cam_picam2_stable_v2.py:263-281 | the box spanned from the first square is clipped inside the frame |
| Corners.FirstLastSquares | warp_cam_picam2_stable_v2.py:174-324 | the first/last-squares finder returns four corners or nothing |
| Corners.AspectBounds | warp_cam_picam2_stable_v2.py:310-313 | an aspect ratio in [0.8, 1.2] means the width lies between 0.8 and 1.2 times the height |
| Corners.AcceptedBoxProper | warp_cam_picam2_stable_v2.py:300-313 | an accepted box has positive sides, area at least `MIN_QUAD_AREA` (5000) and width between 0.8 and 1.2 times its height |
| Corners.FirstLastBoxSound | warp_cam_picam2_stable_v2.py:223-313 | a box comes only from at least two centres whose first (least x+y) and last (greatest x+y) are at least 100 apart, and it lies inside the frame with positive sides and passes both checks |
| Corners.PicamBeige | brain/cv/picam_stable.py:117-126 | the unclipped beige box has four corners |
| Corners.PicamFirstLastValid | brain/cv/picam_stable.py:105-143 | whatever the picam finder returns is a quad that passed `is_valid_quad`, put in position order |
| Corners.LargestQuad | ChessRobot/chessboard_warp.py:10-19 | the scan finds nothing exactly when no convex quad has positive area; otherwise a convex quad of greatest area, the first one reaching it |
| Corners.FindChessboardCorners | ChessRobot/chessboard_warp.py:4-23 | nothing exactly when no convex quad of positive area exists; otherwise the largest convex quad's points in `order_points` order |
| Corners.WarpGuardSpec | CV/warp_cam_picam2.py:139-148 | only four corners reach the warp, always drawn from the given ones and a reordering of them when four are given; without corners, or with a count other than four, the guarded copies return None or a copy of the frame; the unguarded picam copy fails on fewer than four corners and warps four of them when given more |
| Corners.SortedWarp | brain/cv/picam_stable.py:172-178 | a sorting copy warps the four corners `sort_corners_by_position` selects, all of the given ones when there are four |
| Streams.Widen | CV/video_streams.py:158 | a stored baseline row has one value per cell |
| Streams.WarpFallbackSpec | CV/video_streams.py:139-149 | a fresh warp is shown and remembered; without one the remembered warp is shown and kept; only when no warp was ever made is the raw frame shown |
| Streams.AvgCornerDistance | mjpg/piece_recognition.py:67-72 | a missing corner set gives a distance (1e9) beyond the 40-pixel limit |
| Streams.CornerGate | mjpg/piece_recognition.py:94-101 | the chosen corners are the candidate or the last ones; adopted corners are always a valid quad; a valid candidate is adopted when nothing was adopted before; an invalid one never is |
| Streams.CornerGateDistance | mjpg/piece_recognition.py:97-101 | a valid candidate replaces valid last corners exactly when its mean corner distance is at most 40 (or it equals them) |
| Streams.PairCells | mjpg/piece_recognition.py:121-123 | `pairs[:top_k]` yields two cells per kept pair |
| Streams.HighlightedPair | mjpg/piece_recognition.py:119-127 | at most two cells are boxed per frame: two different cells both above the threshold, the larger first, with no other cell above the smaller |
| Streams.EdgeStream.constructor | mjpg/piece_recognition.py:63-85 | the generator starts with threshold 9.0, two pairs at most, and no corners, warp or smoothing |
| Streams.EdgeStream.Step | mjpg/piece_recognition.py:87-127 | one frame: gate the corners, warp or fall back, smooth the cell means (0.6 new, 0.4 old), detrend against the baseline and box the proposed pair, as `EdgeNext` says |
| Streams.RunPicksSpec | CV/piece_recognition.py:178-192 | at most four boxes, none before a baseline is set, and otherwise the picks of the frame's smoothed differences |
| Streams.RebaseRestartsSmoothing | CV/piece_recognition.py:199-208 | 'b' re-bases and drops the smoothing, so the next frame's smoothed means are its own means and its smoothed diffs the raw diffs; 'c' also clears the baseline |
| Streams.RecognitionRun.constructor | CV/piece_recognition.py:108-111 | `run` starts with no baseline, warp, smoothed means or diffs |
| Streams.RecognitionRun.Step | CV/piece_recognition.py:113-212 | one frame of `run` updates the loop state, boxes cells and decides whether to stop, as `RunNext` says |
| Streams.DiffNextSpec | CV/video_streams.py:139-186 | without a baseline nothing is boxed; otherwise at most `top_k` boxes, each at least the threshold, largest first, and with smoothing the first frame uses the raw diffs and later ones blend half and half |
| Streams.DiffStream.constructor | CV/video_streams.py:108-109 | a difference loop starts with no warp and no smoothed diffs |
| Streams.DiffStream.Step | CV/piece_recognition.py:240-284 | one frame of a difference loop updates the state and boxes cells as `DiffNext` says |
| Detector.FrameDiffs | brain/piece_detector.py:209-220 | one difference per cell once every guard passed |
| Detector.DetectPieceChanges | brain/piece_detector.py:222-240 | the selection loop returns exactly the changes `PieceChanges` describes |
| Detector.PieceChangesSpec | brain/piece_detector.py:159-240 | a missing or mis-shaped baseline, a failed read or corners other than four give no changes; omitted arguments mean 12.0 and 4; otherwise at most `top_k` changes on distinct board squares, each at least the threshold and carrying its cell's difference, in descending order, and when fewer than `top_k` no other cell reaches the threshold |
| Detector.AsWrittenReadsLastAttempt | brain/piece_detector.py:274-278 | as written, the outcome is that of the last attempt alone |
| Detector.MissedMoveAttempts | brain/piece_detector.py:276 | the counterexample's attempts are on the board |
| Detector.MissedMove | brain/piece_detector.py:274-311 | two attempts, the first seeing e2 and e4 change and the second nothing: as written no move is reported, the corrected loop reports "e2e4" |
| Detector.DetectMoveSpec | brain/piece_detector.py:274-311 | the corrected loop reports a move exactly when some attempt saw two changes, and then the names of the first such attempt's two largest changes; a single change never decides |
| Detector.BoxedNames | brain/piece_detector.py:412-413 | one square name per boxed cell |
| Detector.NameHasNoSpace | brain/piece_detector.py:97-101 | a square name never contains a space |
| Detector.CoordTextRoundTrip | brain/piece_detector.py:437-442 | the coordinate text is empty exactly when nothing was boxed, and splitting it on the space gives back the first two names (or the only one) |
| Turns.LabGrid | brain/cv/cv_manager.py:283-290 | the stored BGR baseline is converted to LAB cell by cell, each cell independently |
| Turns.ResolveSquares | CV/main.py:396-471 | whichever scheme infers them, the source and destination are two distinct squares of the board |
| Turns.ResolveSquaresSpec | mjpg/main.py:611-634 | a pair picker settles on the two cells of greatest detrended norm, highest first; the scored scheme on the two cells of greatest chroma deviation when no deviation reaches the adaptive threshold |
| Turns.Transit | CV/main.py:472-505 | a transition yields a board and two board squares |
| Turns.TransitSpec | mjpg/main.py:636-672 | the turn flips and the old one becomes the previous turn; at most the two resolved squares change and the pieces on the board are a permutation of those before; the move text names the piece and the squares in the direction the piece went, or "?" when that is unclear; the new baseline is the warp's BGR cell means |
| Turns.ServerNextSpec | mjpg/main.py:575-695 | every request flips the turn; it answers 400 exactly when no frame was streamed and 500 exactly when the capture read nothing, and those answers leave board, history and baselines as they were; a 200 appends exactly the transition's move text, applies its board and stores, reloads and flags the new baseline |
| Turns.FailedRequestSwapsMover | CV/main.py:373-386 | because the turn flips before the frame check, a 400 followed by a 200 resolves with the opposite mover from a single 200 |
| Turns.TurnServer.constructor | mjpg/main.py:85-86 | the server starts with White to move, the starting position, no history and the baseline found on disk |
| Turns.TurnServer.ResolveMove | mjpg/main.py:603-634 | the loop-based inference returns the squares `ResolveSquares` describes |
| Turns.TurnServer.Complete | CV/main.py:387-535 | the success path leaves the globals as the recorded transition prescribes |
| Turns.TurnServer.NextTurn | CV/main.py:368-535 | the route updates the globals and answers exactly as `ServerNext` describes |
| Turns.ProcessTurnSpec | brain/cv/cv_manager.py:296-411 | it raises for a missing pair function exactly when none was given and the module has none, and for the capture exactly when a pair function exists and nothing was read; otherwise the turn flips and the two cells of greatest detrended norm are moved on the board with the matching move text |
| Turns.DefaultPickers | brain/cv/cv_manager.py:20-67 | the cv package copy always has a pair function (its own fallback); the older copy lacks one exactly when the import failed |
| Turns.ProcessTurnTransition | brain/cv_manager.py:200-315 | the loop-based transition returns the outcome `ProcessTurn` describes |
| Turns.FirstValidSpec | brain/cv/cv_manager.py:242-254 | the frame used is the first valid read and lies within the allowed attempts; none is used exactly when every allowed read failed |
| Turns.SaveInitialBoard | brain/cv/cv_manager.py:230-258 | the retry loop returns the baseline and warp of the first valid read, or nothing |
| Turns.LegacyIsOneTry | brain/cv_manager.py:153-162 | the older copy's single read is the retrying copy with one attempt, and fails exactly when the read fails |
| Manual.CornerStore.constructor | brain/cv/cv_manager.py:127-145 | the persisting copy starts with the corners file's points when it holds four of them, and otherwise with none; the other copies start without corners |
| Manual.CornerStore.Enabled | brain/cv/cv_manager.py:123-124 | manual mode is on exactly when four corners are set, which is also what the mjpg server's `manual_mode` flag says |
| Manual.CornerStore.Get | brain/cv/cv_manager.py:117-120 | corners are returned exactly when manual mode is on, and they are four points |
| Manual.CornerStore.Set | mjpg/main.py:117-124 | the corners become the points in TL, TR, BR, BL order and manual mode is on; only the persisting copy writes them to the file (brain/cv/cv_manager.py:91-101) |
| Manual.CornerStore.Clear | brain/cv/cv_manager.py:104-114 | the corners are forgotten and manual mode is off; only the persisting copy removes the file |
| Manual.WarpedReadSpec | mjpg/main.py:143-155 | the wrapped read succeeds exactly when the camera read did; it returns the frame unchanged on failure, the warp exactly when four corners are set, and otherwise the resize or, when resizing raises, the frame |
| Manual.WarpWithManualCornersSpec | brain/cv/cv_manager.py:149-160 | the warp is used only with four set corners and only when it does not raise; otherwise the result is the resize or the frame |
| Manual.CopiesAgree | brain/cv_manager.py:72-83 | with a warp that never raises, the mjpg wrapper and the cv_manager function return the same frame |
| CvGame.Orientations | brain/cv/cv_detection.py:102-104 | the detected order is tried first, and the swapped order second exactly when the two squares differ |
| CvGame.FirstLegalSpec | brain/cv/cv_detection.py:121-125 | the move returned is the first legal one tried and is preceded only by illegal ones; nothing is returned exactly when no move tried is legal |
| CvGame.OrientationMovesOnBoard | brain/cv/cv_detection.py:106-122 | for two board squares the moves tried go from the first to the second, with the four promotions, queen first, for a pawn reaching rank 1 or 8, and no promotion otherwise |
| CvGame.ResolveMoveSpec | brain/cv/cv_detection.py:99-125 | every candidate joins the two squares, the detected direction coming first; the result is a legal candidate, nothing exactly when none is legal, and a legal move in the detected direction always wins over the swapped one |
| CvGame.SameSquareSingleOrientation | brain/cv/cv_detection.py:102-104 | a square detected twice yields only moves from that square to itself |
| CvGame.ResolvedMoveJoins | brain/cv/cv_detection.py:99-125 | a resolved move between two distinct board squares is legal and goes from one to the other |
| CvGame.DetectViaCvFailure | brain/cv/cv_detection.py:42-61 | without a capture device nothing changes; a transition that fails loads a missing board, changes nothing else, yields no move, and fails only for want of a capture |
| CvGame.DetectViaCvSuccess | brain/cv/cv_detection.py:63-79 | a detection that flips the turn adopts the transition's 8 by 8 board and baseline and yields only a legal move between two distinct board squares |
| CvGame.GameState.constructor | brain/cv/cv_detection.py:48-49 | the game state starts with no tracked board and no baseline, so the first detection loads the board |
| CvGame.GameState.DetectMoveViaCv | brain/cv/cv_detection.py:42-79 | the detection updates the game state and returns the move exactly as `DetectViaCv` describes |
| Chess.Classify | brain/game/move_analyzer.py:178-189 | each move has exactly one type: castling when the castling flag is set, else en passant, else capture, else promotion, else a normal move |
| Chess.FlagsOf | brain/robot_arm/robot_arm_controller.py:79-99 | a record's four flags are its four keys read as truth values, a missing key being false |
| Chess.TypeNameInjective | brain/robot_arm/robot_arm_controller.py:205-219 | different move types are printed with different names |
| Chess.ClassifyIgnoresLowerFlags | brain/board_display.py:72-81 | a flag matters only when every higher-priority flag is clear |
| MoveAnalyzer.UpperCaseFileRaises | brain/game/move_analyzer.py:47-57 | as written, two distinct validated squares make the analyser raise exactly when one has an upper-case file, "E2" with "e4" for one |
| MoveAnalyzer.LowerSquare | brain/game/move_analyzer.py:74-82 | a validated square with its file lower-cased is a square name the parser accepts, of the same rank |
| MoveAnalyzer.AnalyzeCoordinatesSpec | brain/game/move_analyzer.py:47-104 | invalid text and one square typed twice give nothing; otherwise the typed order when it is a valid move, else the reversed order when that is, else nothing; a returned move starts on a piece of the side to move and is legal |
| MoveAnalyzer.AnalyzeCoordinatesAgrees | brain/game/move_analyzer.py:47-72 | on input without an upper-case file the corrected analyser returns what the code as written returns |
| MoveAnalyzer.AnalyzeMoveWithContextSpec | brain/game/move_analyzer.py:106-160 | a report is rejected for its format, then for identical text, each exactly when that check is the first to fail; two distinct valid squares raise `ValueError` exactly when one has an upper-case file ("E2" with "e4" or with "e2"); otherwise the move is accepted exactly when the case-corrected analyser finds one, and the report carries that move, a piece of the side to move and a type other than promotion |
| PositionAnalyzer.FirstLegalOfKind | brain/chess_analyzer.py:133-138 | a scenario found is one of the list, of the kind asked for, and legal |
| PositionAnalyzer.FirstByPriority | brain/chess_analyzer.py:130-138 | a scenario found by the priority loops is one of the list and legal |
| PositionAnalyzer.DetermineMoveDirection | brain/chess_analyzer.py:87-141 | the loops return the scenario `Direction` describes |
| PositionAnalyzer.FirstLegalOfKindSingle | brain/chess_analyzer.py:133-138 | when one scenario has the kind, the search finds it exactly when it is legal; with none, it finds nothing |
| PositionAnalyzer.DirectionSpec | brain/chess_analyzer.py:87-141 | no piece of the side to move on either square gives nothing; otherwise the forward move when legal, else the backward move when legal, else the promotion reading when legal, else the first scenario collected; the capture scenario is never the answer and the piece is always the mover's |
| PositionAnalyzer.AnalyzePositionChangeSpec | brain/chess_analyzer.py:24-85 | bad text fails first; a validated upper-case file fails as an analysis error; no piece of the side to move on either square finds no move; a success is a legal move between the two squares with the parsed promotion, by a piece of the side to move, numbered one past the moves played, whose UCI text starts with the two squares |
| PositionAnalyzer.ChangeTypeOf | brain/chess_analyzer.py:264-273 | no change exactly when the square's contents are equal; appeared, disappeared or changed exactly by emptiness before and after |
| PlayerInput.LowerText | brain/player_input.py:19 | lower-casing keeps the length and lower-cases every character on its own |
| PlayerInput.ReadLineSpec | brain/player_input.py:19-43 | a line is a quit word exactly when, stripped and lower-cased, it is "q", "quit" or "exit"; any other line whose length is not four is asked again; a chosen move is a legal move of a piece of the side to move between the two typed squares, in one order or the other |
| PlayerInput.NormalisedUnpadded | brain/player_input.py:19 | a line with no whitespace at either end is only lower-cased |
| PlayerInput.CapitalFilesAccepted | brain/player_input.py:19-28 | "E2E4" reads the same as "e2e4" |
| PlayerInput.GetMoveFromUser | brain/player_input.py:10-47 | the loop returns the outcome of the first line that decides, every earlier line having been asked again, and reports running out of lines exactly when no line decided |
| Timers.FormatTimeRoundTrip | brain/timer_manager.py:130-134 | a rendered time splits at its colon into minutes and a two-digit seconds field below 60, and minutes * 60 + seconds is the time rendered (floor division, negative times included) |
| Timers.FormatTimeInjective | brain/monitor_server.py:262-266 | different times never render alike |
| Timers.DisplayHalves | brain/timer_manager.py:136-138 | the display splits at its bar into the labelled black time and the labelled white time |
| Timers.TimerDisplayInjective | brain/timer_manager.py:136-138 | the display determines both times: no two clock states show the same line |
| Timers.TimerLineNormalForm | brain/timer_manager.py:49-84 | every normalised line is in the direct "P1:…,P2:…" form and normalises to itself |
| Timers.TimerLineRoundTrip | brain/timer_manager.py:58-60 | a direct line the clock sends is kept as it is and reads back as the black and white times it carries |
| Timers.DataLineRoundTrip | brain/timer_manager.py:52-56 | a "DATA: " line loses its tag and gives the direct line it wraps |
| Timers.LogLineRoundTrip | brain/timer_manager.py:62-78 | a "LOG:" status line is rebuilt from its P1 and P2 fields into the direct line of the same two times |
| Timers.TimerManager.constructor | brain/timer_manager.py:16-28 | a fresh manager is not connected and both timers are at ten minutes |
| Timers.LastTimeFields | brain/timer_manager.py:64-72 | the loop over the split parts leaves the last stripped part starting with "P1:" and the last starting with "P2:" (`LastWith`) |
| Timers.TimerManager.ParseTimerData | brain/timer_manager.py:49-84 | the loop over the log fields returns the normalisation `TimerLine` describes |
| Timers.TimerManager.ReadTimerData | brain/timer_manager.py:86-103 | nothing when not connected or when no line is waiting; otherwise the waiting line normalised |
| Timers.TimerManager.SendCommand | brain/timer_manager.py:105-116 | a command is written and reported sent exactly when the port is connected and the write succeeds; the timers do not change |
| Timers.TimerManager.Display | brain/timer_manager.py:136-138 | the display of the current timers, which `TimerDisplayInjective` shows determines them |
| Timers.TimerManager.UpdateTimersFromData | brain/timer_manager.py:140-159 | both timers take the two values read, P1 as black and P2 as white, exactly when the line has two fields with integer values; otherwise neither changes |
| Timers.TimerManager.MonitorCycle | brain/timer_manager.py:168-188 | one pass of the monitoring loop updates the timers exactly when a waiting line normalises and its values read, and then to those values |
| Timers.TimerManager.ResetTimers | brain/timer_manager.py:212-216 | both timers go back to ten minutes |
| Timers.TimerManager.SetTimers | brain/timer_manager.py:218-222 | each timer takes its new value clamped below at zero |
| Signals.CheckTimeOverSpec | brain/timer/timer_control.py:11-26 | time is over exactly when both getters answer and one of the two times is present and not positive; black is examined first, so when both have run out black is the one reported; a getter that raises means time is not over |
| Signals.MissingTimeIgnored | brain/terminal_chess.py:169-184 | a missing time never runs out: with one time missing only the other decides |
| Signals.TimeOverMonotone | brain/timer/timer_control.py:16-23 | once time is over, less time left on either clock keeps it over |
| Signals.CheckTimerButtonPress | brain/timer/timer_control.py:29-41 | black's button "P1" ends black's turn and white's button "P2" ends white's, each exactly then; any other signal or a failing read gives nothing |
| Signals.PollTimerButtonSpec | brain/game_flow.py:256-271 | the game loop's poll gives nothing exactly for a failing read or a falsy signal, agrees with `check_timer_button_press` on the two buttons, and passes any other signal through unchanged |
| Signals.PlayerMoveTrigger | brain/game_flow.py:123-133 | the player's move is analysed exactly when white's button "P2" is pressed or the clock itself reports the end of white's turn; black's button only waits; no signal idles |
| Signals.GuardedCall | brain/timer/timer_control.py:52-66 | a guarded clock call reports success exactly when the call returns true without raising |
| Robot.EnPassantVictim | brain/robot_arm/robot_arm_controller.py:88-92 | the pawn an en-passant capture takes stands on the destination's file and the source's rank |
| Robot.EnPassantWrongSquare | brain/robot_arm/robot_arm_controller.py:88-92 | as written, the square cleared for an en-passant capture is the taken pawn's only for a move that stays on its square; for e5d6 the arm is told to clear e6 |
| Robot.GenerateMoveCommandsSpec | brain/robot_arm/robot_arm_controller.py:68-107 | an empty record or UCI gives no commands; a castling gives the king's then the rook's command on the king's rank, the rook starting on h exactly for kingside, or none for an unknown castling; a capture of either kind first clears the taken piece's square (the pawn actually taken, for en passant) and then makes the move; every other move is the one command of the move |
| Robot.GenerateMoveCommandsAgrees | brain/robot_arm/robot_arm_controller.py:68-107 | the correction changes only the en-passant commands: every other record gets the same commands as written |
| Robot.CommandsFollowType | brain/robot_arm/robot_arm_controller.py:79-105 | two records of the same move type give the same commands |
| Robot.MoveDescription | brain/robot_arm/robot_arm_controller.py:205-219 | unknown for an empty record or UCI, and otherwise the name of the move's type under the shared priority |
| Robot.DescriptionMatchesCommands | brain/robot_arm/robot_arm_controller.py:205-219 | a move is described as a capture of either kind exactly when its commands first clear a square and then make the move |
| Robot.FirstRefused | brain/robot_arm/robot_arm_controller.py:180-188 | the first refused command, every earlier one having been acknowledged, or the command count when none is refused |
| Robot.Delivered | brain/robot_arm/robot_arm_controller.py:180-188 | the commands written are all of them, or those up to and including the first refused one |
| Robot.RefusedAt | brain/robot_arm/robot_arm_controller.py:183-186 | a refusal after only acknowledged commands is where the delivery stops |
| Robot.AllAccepted | brain/robot_arm/robot_arm_controller.py:180-192 | with every command acknowledged, all of them are delivered |
| Robot.FirstRefusedIs | brain/robot_arm/robot_arm_controller.py:180-188 | the search from a command finds the first refusal at or after it |
| Robot.RobotArm.constructor | brain/robot_arm/robot_arm_controller.py:17-23 | a new controller keeps its settings and is neither connected nor moving |
| Robot.RobotArm.SendSingleCommand | brain/robot_arm/robot_arm_controller.py:109-148 | without a connection nothing is written and the command counts as done; otherwise it is written and the arm's answer decides |
| Robot.RobotArm.ExecuteMove | brain/robot_arm/robot_arm_controller.py:150-203 | refused while disabled, while moving, or for a move with no commands; without a connection the move counts as done and nothing is written; otherwise the commands of `_generate_move_commands` as written (en passant clearing the square the code names) are written in order up to the first refusal and the move succeeds exactly when none is refused; the settings, the connection and the moving flag are the same afterwards |
| Robot.RobotArm.Configure | brain/robot_arm/robot_arm_controller.py:221-233 | each setting given replaces the old one and nothing else changes |
| Display.ResolveMoveTypeNameSpec | brain/board_display.py:72-81 | the name is that of the record's classification under the shared priority, and "일반 이동" exactly when no flag is set |
| Display.MoveTypeLineSpec | brain/board_display.py:65-67 | the move-type line is printed exactly when the record is non-empty and the best move is a non-empty text, and it then names the record's classification under the shared priority |
| Display.RoundHalfEven | brain/board_display.py:52 | the result is within one half of its argument, and an exact tie goes to the even neighbour |
| Display.EvaluationLineSpec | brain/board_display.py:41-63 | a mate score is shown exactly when there is one, whatever the probability; nothing is shown exactly when both are missing; otherwise the two shares add up to 100, white's lies within half a percent of the probability, both lie in 0..100 for a probability in [0, 1], and the centipawn value is carried along |
| Display.ChanceMonotone | brain/board_display.py:52-53 | a higher winning probability never shows a smaller share for white |
| Display.RoundMonotone | brain/board_display.py:52 | rounding never reverses the order of two numbers |
| Monitor.InitialState | brain/monitor_server.py:17-27 | the state starts with exactly the nine fields, stamped with the start time |
| Monitor.PutSpec | brain/monitor_server.py:299-300 | a field write adds or overwrites one key only when a value is given |
| Monitor.FirstWritesSpec | brain/monitor_server.py:299-306 | the board, clock and turn writes change exactly those of the four fields given a value |
| Monitor.LaterWritesSpec | brain/monitor_server.py:307-314 | the status, last-move, count and activity writes change exactly those of the four fields given a value |
| Monitor.UpdatedStateSpec | brain/monitor_server.py:293-316 | an update changes exactly the fields it is given a value for, each to that value, always refreshes the timestamp, keeps every other field and removes none |
| Monitor.UpdatedStateKeeps | brain/monitor_server.py:293-316 | a state holding all nine fields still holds them after an update |
| Monitor.UpdateIdempotent | brain/monitor_server.py:293-316 | giving the same update twice with the same time is the same as giving it once |
| Monitor.MergedSpec | brain/monitor_server.py:286-287 | a merge keeps every field, takes each posted field's value, keeps every field not posted, and stamps the time last so a posted timestamp is overridden |
| Monitor.GameMonitor.constructor | brain/monitor_server.py:17-27 | the server starts with the initial state |
| Monitor.GameMonitor.UpdateGameState | brain/monitor_server.py:293-316 | the field-by-field writes leave the state `UpdatedState` describes and keep all nine fields |
| Monitor.GameMonitor.ApiUpdateBoard | brain/monitor_server.py:280-291 | success is reported exactly when the body could be read; a non-empty posted object is merged in with a fresh timestamp; no data or an empty object changes nothing |
| Text.SplitJoin | brain/timer_manager.py:65 | splitting a line at a separator loses nothing: joining the fields gives the line back, and no field holds the separator |
| Text.IntRoundTrip | brain/timer_manager.py:147-148 | `int` reads back every integer `str` writes |
| Text.Pad2RoundTrip | brain/timer_manager.py:130-134 | the two-digit rendering of a number is at least two characters, has no colon and reads back as the number |

## Left out

### I/O and external libraries

These are not part of this model:

- Camera access, frame threads and locks, `time.sleep` pacing.
- Serial connect/read/write traffic.
- Flask routes and HTML pages.
- The MJPEG byte framing.
- JPEG encoding and all drawing.

They are I/O, concurrency or user interface. Where the core depends on one
of them, its outcome is a parameter.

- **cv2 image operations.** Colour conversion, perspective warps, contours,
  moments, Canny, CLAHE and resizing are taken as given outputs. Only their
  shape guards are modelled. `cv2.boxPoints` is taken to return four points.
- **Persistence.** `pickle`, `np.save`/`np.load`, `os.remove` and the
  `mtime`-based reload are file I/O. A saved board or baseline is taken to
  load back unchanged.
- **Floating-point numerics.** `sqrt`, the Euclidean norm, `arccos`, `pow`
  and the engine's logistic win probability are outside the model. Colours
  and scores are exact reals, so float rounding error is not modelled.
- **python-chess and Stockfish.** Move legality is an abstract predicate.
  SAN, check flags, game-over predicates and engine analysis are not part
  of this model. A move's classification flags are given as a record.
- **Orchestration and other code.** Robot-arm inverse kinematics (C++),
  `mjpg/marker_validator.py`, KMeans colour clustering,
  `warp_points_to_original`, the launchers and viewers, and the terminal
  game loop's input and printing are not part of this model.

### Behaviour not captured

- `np.argsort` ties.
  - `Ranking.ArgsortDesc` breaks ties between equal values by ascending
    index, i.e. a stable sort.
  - numpy's default quicksort does not guarantee any tie order.
  - `np.argsort(areas)[::-1]` in the corner finders breaks ties by
    descending index, which the model does not reproduce.
  - With distinct values the orders agree.
- `CV/warp_cam_picam2.py` sets `USE_STABILIZER = False` (line 30), so its
  `main` builds no stabiliser (lines 174-175) and hands the screened corners
  straight to the hold. That frame loop is not modelled as a whole. Its
  parts are: `Stabilizer.Screen`, `Stabilizer.CornerHold.Use` and
  `Corners.WarpChessboard`. The stabilised loop of the other copies is
  modelled (`Stabilizer.SafeFindCorners`).
- `gen_edges_frames` in `mjpg/piece_recognition.py` streams the raw camera
  frames forever when the baseline file is missing (lines 73-80). That
  branch only encodes frames and is not modelled. `Streams.EdgeStream`
  models the loop that runs once a baseline has been loaded.
- `chess_analyzer.update_board` and `get_board_differences` are not part of
  this model. They only copy the library's board.
- `press_timer_button`, `start_timer`/`stop_timer` and the clock getters in
  `brain/timer/timer_control.py` forward to the serial manager. They are
  not part of this model. Their outcomes are parameters of `Signals`.
- The `game_state` module of the `brain` package is not part of this
  model. `CvGame.GameState` holds only the fields a detection touches.
- The timing of the clock-monitoring thread is not modelled. One cycle of
  its loop is (`Timers.TimerManager.MonitorCycle`).
- The connect and disconnect calls are not modelled. Connection is a field.
- `Monitor.GameMonitor.ApiUpdateBoard`: a posted JSON body that is not an
  object is not modelled. Bodies are an object, nothing, or unreadable.
- `Text.ParseInt` reads an optional sign and ASCII digits. It does not
  accept the underscore separators ("1_000") that Python's `int` allows.
- `Display.MoveTypeLine` takes a null best move to be falsy. A present but
  empty text is too.
- `Robot.GenerateMoveCommands` requires the UCI text to be empty or at
  least four characters long. That is what its callers pass: the text of
  python-chess's `Move.uci()`, which is never shorter. For a shorter text
  the source only slices, and gives commands built from the pieces. The
  one exception is en passant, where `to_square[1]` raises `IndexError`.
  Those outcomes are not modelled.
- `Robot.RobotArm.ExecuteMove` has the same requirement, for the same
  reason.
- Castling commands are modelled as written:
  - the king's square is sent with `cap`;
  - then comes the rook's move;
  - the king's own move is not sent.
- `Streams.AvgCornerDistance` returns `1e9` for a missing corner set, as
  the source does. The caller tests `last is None` first, so that value
  never decides the gate.
- The `warp_chessboard` of `brain/cv/picam_stable.py` has no shape guard. It
  hands whatever corners it gets to `sort_corners_by_position`. Fewer than
  four make that sort raise `IndexError`, the error outcome of
  `Corners.WarpGuardSpec`. The exception itself is not modelled.
- `Corners.LargestQuad` starts the largest area at 0 and compares with a
  strict `>`, so a quad of zero area is never chosen.

## Findings

| source | as written | input that shows it | evidently intended | confidence | as-written member | corrected member |
|---|---|---|---|---|---|---|
| brain/piece_detector.py:274-278 | the loop over detection attempts only calls `detect_piece_changes`, and `len(changes) >= 2` is checked after the loop, so only the last attempt's changes are inspected | attempts whose first result holds the two changes of e2-e4 and whose last result is empty: as written no move is reported | report the move of the first attempt that finds two changes ("e2e4") | not executed | Detector.MissedMove | Detector.DetectMoveSpec |
| brain/game/move_analyzer.py:47-57 | `_is_valid_square` lower-cases the file before checking it, but the text is then handed unchanged to `chess.parse_square`, which accepts only lower-case files and raises | coordinates "E2" and "e4": validation passes and the square parse raises `ValueError` | lower-case (or reject) the coordinates before parsing them, so that "E2","e4" resolves like "e2","e4" | not executed | MoveAnalyzer.UpperCaseFileRaises | MoveAnalyzer.AnalyzeCoordinatesAgrees |
| brain/robot_arm/robot_arm_controller.py:88-92 | the en passant victim's square is built from the source file and the target rank | UCI "e5d6" with the en passant flag: the command "e6cap" names the empty target-rank square | the captured pawn stands on the target file and the source rank: "d5cap" | not executed | Robot.EnPassantWrongSquare | Robot.GenerateMoveCommandsAgrees |
