# Centred main window of the Windows runner

The Windows entry point of the application (`windows/runner/main.cpp`)
creates the main Flutter window at 1280x720 pixels. It places the window with
`GetCenteredWindowOrigin`, which reads the primary screen's width and height
and returns the top-left corner that centres a window of the given size. On
each axis the origin is `(screen - window) / 2` in C++ `int` arithmetic. A
negative value is replaced by 0, so a window larger than the screen starts at
the screen's edge.

This project models that computation in Dafny and proves what it guarantees:

- `cpp_int.dfy`, module `CppInt`: the 32-bit range of C++ `int` and C++
  division, which truncates toward zero (Dafny's `/` is Euclidean). C++
  division is tied to a definition by repeated subtraction. The module proves
  that the two divisions agree on non-negative dividends and can differ on
  negative ones (C++ gives `-1 / 2 == 0`). It also proves that they agree again once the result is
  clamped at zero.
- `centered_window.dfy`, module `CenteredWindow`: the origin computation with
  the screen size as parameters. `AxisCentred` is an independent reference
  description of a centred placement. The model proves that the computed
  origin is the one and only origin meeting that description. It also models
  the start-up code, which asks for the origin of the same 1280x720 size that
  it passes to `Create`.

C++ leaves signed overflow undefined, so the functions require the inputs and
`screen - window` to fit in an `int`. `ScreenMetricsNeverOverflow` proves that
this always holds for the non-negative pixel counts that the operating system
reports.

## Model

| member | source | states |
|---|---|---|
| `CppInt.TruncDiv` | windows/runner/main.cpp:15-16 | C++ `/` by a positive divisor: the quotient rounds toward zero, and the remainder has the dividend's sign and is smaller than the divisor |
| `CppInt.WholeMultiples` | windows/runner/main.cpp:15-16 | a reference definition of integer division by repeated subtraction: the count `k` of whole divisors in `n` satisfies `k * b <= n < k * b + b` |
| `CppInt.TruncDivCountsWholeMultiples` | windows/runner/main.cpp:15-16 | C++ division equals the reference count of whole divisors in the dividend's magnitude, with the dividend's sign |
| `CppInt.TruncDivUnique` | windows/runner/main.cpp:15-16 | exactly one quotient satisfies that remainder condition, so `TruncDiv`'s contract fully determines C++ division |
| `CppInt.TruncDivOfNonNegative` | windows/runner/main.cpp:15-16 | truncating and Euclidean division agree when the dividend is non-negative |
| `CppInt.TruncDivOfNegativeDiffers` | windows/runner/main.cpp:15-16 | the two divisions can disagree on a negative dividend: C++ gives `-1 / 2 == 0`, Euclidean gives `-1` |
| `CppInt.ClampAtZero` | windows/runner/main.cpp:19-20 | the clamp gives the larger of the value and 0 |
| `CppInt.ClampedTruncDivIsClampedEuclidean` | windows/runner/main.cpp:15-20 | once the result is clamped at 0, truncating and Euclidean division give the same value for every dividend |
| `CppInt.TruncDivStaysInt32` | windows/runner/main.cpp:15-16 | dividing an `int` by a positive `int` cannot leave the `int` range |
| `CenteredWindow.CenteredCoordinate` | windows/runner/main.cpp:15-20 | one coordinate of the origin: never negative; 0 when the window is at least as large as the screen; otherwise half the free space rounded down, with the window wholly on screen and the two margins differing by at most one pixel |
| `CenteredWindow.GetCenteredWindowOrigin` | windows/runner/main.cpp:9-23 | both coordinates are non-negative, and each axis is centred as the reference description `AxisCentred` defines it |
| `CenteredWindow.CenteredCoordinateIsTheCentredOne` | windows/runner/main.cpp:15-20 | on one axis, a coordinate equals the computed one if and only if it meets the reference description of a centred placement |
| `CenteredWindow.CenteredOriginIsTheCentredOne` | windows/runner/main.cpp:9-23 | a point equals the computed origin if and only if both of its axes meet the reference description |
| `CenteredWindow.AxesAreIndependent` | windows/runner/main.cpp:15-16 | the x coordinate depends only on the two widths, and the y coordinate only on the two heights |
| `CenteredWindow.AxesFollowTheSameRule` | windows/runner/main.cpp:15-20 | swapping width and height in the inputs swaps the two coordinates, so both axes use the same rule |
| `CenteredWindow.CenteredCoordinateUsesEitherDivision` | windows/runner/main.cpp:15-20 | the coordinate computed with C++ division and the clamp equals the one computed with Euclidean division and the clamp |
| `CenteredWindow.ScreenMetricsNeverOverflow` | windows/runner/main.cpp:11-16 | for non-negative `int` extents, `screen - window` cannot overflow, and the resulting coordinate is an `int` |
| `CenteredWindow.MainWindowPlacement` | windows/runner/main.cpp:58-60 | `Create` receives a size of 1280x720, and the origin is centred for that same size on the current screen |
| `CenteredWindow.MainWindowOnCommonScreens` | windows/runner/main.cpp:58-59 | the main window's origin on 1920x1080, 1366x768, 1280x720, 1024x768 and 0x0 screens |

## Left out

- `GetSystemMetrics(SM_CXSCREEN)` and `GetSystemMetrics(SM_CYSCREEN)` (lines 11-12) are operating-system queries. The screen width and height are parameters instead, limited to the non-negative `int` values the query can return.
- The `Win32Window::Point` and `Win32Window::Size` types are declared in `win32_window.h`, which is not part of this model. Here they are pairs of unbounded integers. The coordinates are non-negative `int` values, so any conversion to the header's field type keeps their value.
- `CppInt.TruncDiv`: only positive divisors are modelled, because the source only divides by 2.
- The single-instance guard (lines 27-38) is left out: a named mutex, `GetLastError` and a message box are cross-process OS state with no logic to state here.
- Attaching a console and initialising and shutting down COM (lines 41-47, 71) are left out as foreign OS calls.
- The Flutter project setup, the command-line arguments, `FlutterWindow::Create` and its failure exit, and `SetQuitOnClose` (lines 49-63) are left out. They call library code that is not part of this model. `MainWindowPlacement` models only the arguments passed to `Create`.
- The Win32 message loop (lines 65-69) is left out: the operating system drives it.
