/**
 * Manually chosen board corners.  Once four corners are set, every
 * captured frame is warped with them; without them a frame is only
 * resized.  Three copies exist: the mjpg server keeps the corners with a
 * separate `manual_mode` flag, the cv package copy of cv_manager also
 * saves them to a file (and loads that file at start-up), and the older
 * cv_manager keeps them in memory only.
 */
module Manual {
  import opened Wrappers
  import opened Geometry
  import opened Streams

  /** Corners a warp can use: four points, the `(4, 2)` shape the warp checks for. */
  predicate Usable(corners: Option<seq<Point>>)
  {
    corners.Some? && |corners.value| == 4
  }

  /**
   * The corner state.  `mode` is the mjpg server's `manual_mode` flag;
   * `stored` is the corners file on disk, written only by the copy that
   * `persists`.
   */
  class CornerStore {
    const persists: bool
    var corners: Option<seq<Point>>
    var mode: bool
    var stored: Option<seq<Point>>

    /** The corners are always four points when set, and the mode flag says exactly whether they are set. */
    ghost predicate Valid()
      reads this
    {
      (corners.Some? ==> |corners.value| == 4) && mode == corners.Some?
    }

    /**
     * Start-up.  The persisting copy loads the corners file when it holds
     * four points and otherwise starts without corners; the other copies
     * always start without corners.
     */
    constructor (persists: bool, file: Option<seq<Point>>)
      ensures this.persists == persists && stored == file && Valid()
      ensures corners == (if persists && Usable(file) then file else None)
    {
      this.persists := persists;
      stored := file;
      if persists && file.Some? && |file.value| == 4 {
        corners := file;
        mode := true;
      } else {
        corners := None;
        mode := false;
      }
    }

    /** `manual_mode_enabled()`: corners are set. */
    function Enabled(): (on: bool)
      reads this
      requires Valid()
      ensures on <==> Usable(corners)
      ensures on == mode
    {
      corners.Some?
    }

    /** `get_manual_corners()`: the corners, or nothing when none are set. */
    function Get(): (c: Option<seq<Point>>)
      reads this
      requires Valid()
      ensures c.Some? <==> Enabled()
      ensures c.Some? ==> |c.value| == 4
    {
      corners
    }

    /**
     * `set_manual_corners(points)`: store the points in TL, TR, BR, BL order
     * (smallest and largest x + y, smallest and largest y - x) and turn
     * manual mode on; the persisting copy also writes the file.
     */
    method Set(points: seq<Point>)
      requires |points| == 4
      modifies this
      ensures Valid() && Enabled()
      ensures corners == Some(OrderCorners(points)) && mode
      ensures stored == (if persists then corners else old(stored))
    {
      var ordered := OrderCorners(points);
      corners := Some(ordered);
      mode := true;
      if persists {
        stored := corners;
      }
    }

    /** `clear_manual_corners()`: forget the corners and turn manual mode off; the persisting copy also removes the file. */
    method Clear()
      modifies this
      ensures Valid() && !Enabled()
      ensures corners == None && !mode
      ensures stored == (if persists then None else old(stored))
    {
      corners := None;
      mode := false;
      if persists {
        stored := None;
      }
    }
  }

  /**
   * mjpg `WarpedCapture.read`: a failed read passes through unchanged;
   * otherwise the frame is warped with four set corners, else resized,
   * else (when resizing raises) returned as read.
   */
  function WarpedRead(corners: Option<seq<Point>>, ok: bool, frame: Image,
                      warp: (Image, seq<Point>) -> Image, resize: Image -> Option<Image>): (bool, Image)
  {
    if !ok then (false, frame)
    else if Usable(corners) then (true, warp(frame, corners.value))
    else (true, resize(frame).GetOr(frame))
  }

  /**
   * The read succeeds exactly when the underlying read did, and the
   * frame it returns is the original one on failure, the warp exactly
   * when four corners are set, and the resize (or the original) without
   * corners.
   */
  lemma WarpedReadSpec(corners: Option<seq<Point>>, ok: bool, frame: Image,
                       warp: (Image, seq<Point>) -> Image, resize: Image -> Option<Image>)
    ensures var (ok', out) := WarpedRead(corners, ok, frame, warp, resize);
      ok' == ok
      && (!ok ==> out == frame)
      && (ok && Usable(corners) ==> out == warp(frame, corners.value))
      && (ok && !Usable(corners) && resize(frame).Some? ==> out == resize(frame).value)
      && (ok && !Usable(corners) && resize(frame).None? ==> out == frame)
  {
  }

  /**
   * cv_manager `warp_with_manual_corners`: warp with usable corners unless
   * the warp raises; otherwise resize, or the frame itself when resizing
   * raises.
   */
  function WarpWithManualCorners(corners: Option<seq<Point>>, frame: Image,
                                 warp: (Image, seq<Point>) -> Option<Image>, resize: Image -> Option<Image>): Image
  {
    var warped := if Usable(corners) then warp(frame, corners.value) else None;
    if warped.Some? then warped.value else resize(frame).GetOr(frame)
  }

  /** The warp is used only with four set corners and only when it succeeds; otherwise the result is the resize or the frame. */
  lemma WarpWithManualCornersSpec(corners: Option<seq<Point>>, frame: Image,
                                  warp: (Image, seq<Point>) -> Option<Image>, resize: Image -> Option<Image>)
    ensures var out := WarpWithManualCorners(corners, frame, warp, resize);
      (Usable(corners) && warp(frame, corners.value).Some? ==> out == warp(frame, corners.value).value)
      && (!(Usable(corners) && warp(frame, corners.value).Some?) ==> out == resize(frame).GetOr(frame))
  {
  }

  /**
   * With usable corners and a warp that never raises, the mjpg wrapper and
   * the cv_manager function give the same frame; without corners both
   * resize.
   */
  lemma CopiesAgree(corners: Option<seq<Point>>, frame: Image,
                    warp: (Image, seq<Point>) -> Image, resize: Image -> Option<Image>)
    ensures WarpedRead(corners, true, frame, warp, resize).1
         == WarpWithManualCorners(corners, frame, (f, c) => Some(warp(f, c)), resize)
  {
  }
}
