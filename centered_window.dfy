/** Placement of the application's main window: `GetCenteredWindowOrigin`,
    which centres a window of a given size on the primary screen, and the
    start-up code that sizes the main window at 1280x720 and asks for its
    centred origin. The screen size that the code reads from the operating
    system is a parameter here. */
module CenteredWindow {
  import opened CppInt

  /** Top-left corner of a window, in screen pixels. */
  datatype Point = Point(x: int, y: int)

  /** Extent of a window, in pixels. */
  datatype Size = Size(width: int, height: int)

  /** What the start-up code hands to the window's `Create`. */
  datatype Placement = Placement(origin: Point, size: Size)

  /** The size the start-up code gives the main window. */
  const MainWindowWidth: int := 1280
  const MainWindowHeight: int := 720

  /** A screen extent as the operating system reports it: a pixel count of
      type `int`, zero when the query fails. */
  predicate IsScreenMetric(v: int) {
    0 <= v <= Int32Max
  }

  /** Both extents of one axis are `int` values and `screen - window` does
      not overflow, so the C++ arithmetic on that axis is defined. */
  predicate AxisDefined(window: int, screen: int) {
    IsInt32(window) && IsInt32(screen) && IsInt32(screen - window)
  }

  /** Reference description of a centred placement along one axis,
      independent of how the origin is computed. A window that fits lies
      wholly on the screen, and its far margin exceeds its near margin by
      zero or one pixel. A window that does not fit starts at the screen's
      edge. */
  predicate AxisCentred(origin: int, window: int, screen: int) {
    if window <= screen then
      && 0 <= origin
      && origin + window <= screen
      && 0 <= (screen - (origin + window)) - origin <= 1
    else
      origin == 0
  }

  /** Both axes of `origin` are centred for a window of `size`. */
  predicate Centred(origin: Point, size: Size, screenWidth: int, screenHeight: int) {
    && AxisCentred(origin.x, size.width, screenWidth)
    && AxisCentred(origin.y, size.height, screenHeight)
  }

  /** One axis of `GetCenteredWindowOrigin`: half the difference between
      the screen and window extents, using C++ division, then raised to zero
      when negative. */
  function CenteredCoordinate(window: int, screen: int): (o: int)
    requires AxisDefined(window, screen)
    ensures o >= 0
    ensures window >= screen ==> o == 0
    ensures window <= screen ==> o == (screen - window) / 2
    ensures AxisCentred(o, window, screen)
  {
    ClampAtZero(TruncDiv(screen - window, 2))
  }

  /** The origin at which a window of the given size appears centred on a
      screen of the given size. */
  function GetCenteredWindowOrigin(windowWidth: int, windowHeight: int,
                                   screenWidth: int, screenHeight: int): (p: Point)
    requires AxisDefined(windowWidth, screenWidth)
    requires AxisDefined(windowHeight, screenHeight)
    ensures p.x >= 0 && p.y >= 0
    ensures Centred(p, Size(windowWidth, windowHeight), screenWidth, screenHeight)
  {
    Point(CenteredCoordinate(windowWidth, screenWidth),
          CenteredCoordinate(windowHeight, screenHeight))
  }

  /** On one axis, the computed coordinate is exactly the centred one: it
      satisfies the reference description, and nothing else does. */
  lemma CenteredCoordinateIsTheCentredOne(window: int, screen: int, o: int)
    requires AxisDefined(window, screen)
    ensures o == CenteredCoordinate(window, screen) <==> AxisCentred(o, window, screen)
  {
  }

  /** The computed origin is the only centred origin. */
  lemma CenteredOriginIsTheCentredOne(windowWidth: int, windowHeight: int,
                                      screenWidth: int, screenHeight: int, p: Point)
    requires AxisDefined(windowWidth, screenWidth)
    requires AxisDefined(windowHeight, screenHeight)
    ensures p == GetCenteredWindowOrigin(windowWidth, windowHeight, screenWidth, screenHeight)
            <==> Centred(p, Size(windowWidth, windowHeight), screenWidth, screenHeight)
  {
  }

  /** The horizontal coordinate depends only on the widths and the vertical
      one only on the heights. */
  lemma AxesAreIndependent(windowWidth: int, windowHeight: int, screenWidth: int, screenHeight: int,
                           windowWidth': int, windowHeight': int, screenWidth': int, screenHeight': int)
    requires AxisDefined(windowWidth, screenWidth) && AxisDefined(windowHeight, screenHeight)
    requires AxisDefined(windowWidth', screenWidth') && AxisDefined(windowHeight', screenHeight')
    ensures windowWidth == windowWidth' && screenWidth == screenWidth' ==>
      GetCenteredWindowOrigin(windowWidth, windowHeight, screenWidth, screenHeight).x
      == GetCenteredWindowOrigin(windowWidth', windowHeight', screenWidth', screenHeight').x
    ensures windowHeight == windowHeight' && screenHeight == screenHeight' ==>
      GetCenteredWindowOrigin(windowWidth, windowHeight, screenWidth, screenHeight).y
      == GetCenteredWindowOrigin(windowWidth', windowHeight', screenWidth', screenHeight').y
  {
  }

  /** Both axes follow the same rule: exchanging the roles of width and
      height exchanges the two coordinates. */
  lemma AxesFollowTheSameRule(windowWidth: int, windowHeight: int, screenWidth: int, screenHeight: int)
    requires AxisDefined(windowWidth, screenWidth) && AxisDefined(windowHeight, screenHeight)
    ensures
      var p := GetCenteredWindowOrigin(windowWidth, windowHeight, screenWidth, screenHeight);
      GetCenteredWindowOrigin(windowHeight, windowWidth, screenHeight, screenWidth) == Point(p.y, p.x)
  {
  }

  /** Truncating the halved difference and clamping gives what Euclidean
      (floor) division and clamping would give, so the sign of a window
      larger than the screen never reaches the origin. */
  lemma CenteredCoordinateUsesEitherDivision(window: int, screen: int)
    requires AxisDefined(window, screen)
    ensures CenteredCoordinate(window, screen) == ClampAtZero((screen - window) / 2)
  {
  }

  /** Window and screen extents in the range the operating system reports
      never make the subtraction overflow. */
  lemma ScreenMetricsNeverOverflow(window: int, screen: int)
    requires IsScreenMetric(window) && IsScreenMetric(screen)
    ensures AxisDefined(window, screen)
    ensures IsInt32(CenteredCoordinate(window, screen))
  {
  }

  /** The start-up code: a 1280x720 main window whose origin is centred for
      that same size on the current screen. */
  function MainWindowPlacement(screenWidth: int, screenHeight: int): (pl: Placement)
    requires IsScreenMetric(screenWidth) && IsScreenMetric(screenHeight)
    ensures pl.size == Size(1280, 720)
    ensures Centred(pl.origin, pl.size, screenWidth, screenHeight)
  {
    var size := Size(MainWindowWidth, MainWindowHeight);
    Placement(GetCenteredWindowOrigin(MainWindowWidth, MainWindowHeight, screenWidth, screenHeight), size)
  }

  /** The main window on a few common screen sizes. */
  lemma MainWindowOnCommonScreens()
    ensures MainWindowPlacement(1920, 1080).origin == Point(320, 180)
    ensures MainWindowPlacement(1366, 768).origin == Point(43, 24)
    ensures MainWindowPlacement(1280, 720).origin == Point(0, 0)
    ensures MainWindowPlacement(1024, 768).origin == Point(0, 24)
    ensures MainWindowPlacement(0, 0).origin == Point(0, 0)
  {
  }
}
