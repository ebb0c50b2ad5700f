/**
 * useWindowSize: the window's size and the breakpoint class its width
 * falls in.
 */
module WindowSize {
  import opened Wrappers

  datatype Breakpoint = Mobile | Tablet | Desktop | Wide {
    /** The classes in order of width. */
    function Rank(): nat {
      match this
      case Mobile => 0
      case Tablet => 1
      case Desktop => 2
      case Wide => 3
    }
  }

  /** The widths at which the classes end (the `breakpoints` option). */
  datatype Thresholds = Thresholds(mobile: int, tablet: int, desktop: int) {
    predicate Ordered() {
      mobile <= tablet <= desktop
    }
  }

  const DefaultThresholds := Thresholds(640, 768, 1024)

  datatype Size = Size(width: int, height: int)

  /** The size the hook starts with: the window's, or 0 by 0 without a window. */
  function InitialSize(window: Option<Size>): Size {
    window.GetOr(Size(0, 0))
  }

  /** The class is the first whose threshold lies above the width; past all of them, `Wide`. */
  function GetBreakpoint(b: Thresholds, width: int): (r: Breakpoint)
    ensures r == Mobile <==> width < b.mobile
    ensures r == Tablet <==> b.mobile <= width < b.tablet
    ensures r == Desktop <==> b.mobile <= width && b.tablet <= width < b.desktop
    ensures r == Wide <==> b.mobile <= width && b.tablet <= width && b.desktop <= width
  {
    if width < b.mobile then Mobile
    else if width < b.tablet then Tablet
    else if width < b.desktop then Desktop
    else Wide
  }

  /** With ordered thresholds each class is exactly the interval between two thresholds. */
  lemma BreakpointIntervals(b: Thresholds, width: int)
    requires b.Ordered()
    ensures GetBreakpoint(b, width) == Tablet <==> b.mobile <= width < b.tablet
    ensures GetBreakpoint(b, width) == Desktop <==> b.tablet <= width < b.desktop
    ensures GetBreakpoint(b, width) == Wide <==> b.desktop <= width
  {
  }

  /** With ordered thresholds a wider window never falls in a narrower class. */
  lemma BreakpointMonotone(b: Thresholds, w1: int, w2: int)
    requires b.Ordered() && w1 <= w2
    ensures GetBreakpoint(b, w1).Rank() <= GetBreakpoint(b, w2).Rank()
  {
  }

  /** Under the default thresholds, a width equal to a threshold belongs to the next class up. */
  lemma DefaultBoundaries()
    ensures GetBreakpoint(DefaultThresholds, 639) == Mobile
    ensures GetBreakpoint(DefaultThresholds, 640) == Tablet
    ensures GetBreakpoint(DefaultThresholds, 767) == Tablet
    ensures GetBreakpoint(DefaultThresholds, 768) == Desktop
    ensures GetBreakpoint(DefaultThresholds, 1023) == Desktop
    ensures GetBreakpoint(DefaultThresholds, 1024) == Wide
  {
  }

  /** Without a window the hook reports a mobile-sized, 0 by 0 window. */
  lemma NoWindowIsMobile(b: Thresholds)
    requires b.mobile > 0
    ensures InitialSize(None) == Size(0, 0)
    ensures GetBreakpoint(b, InitialSize(None).width) == Mobile
  {
  }

  /** What the hook returns. */
  datatype WindowReport = WindowReport(
    width: int, height: int, breakpoint: Breakpoint,
    isMobile: bool, isTablet: bool, isDesktop: bool, isWide: bool)

  function Report(b: Thresholds, size: Size): (r: WindowReport)
    ensures r.width == size.width && r.height == size.height
    ensures r.breakpoint == GetBreakpoint(b, size.width)
    ensures (r.isMobile <==> r.breakpoint == Mobile) && (r.isTablet <==> r.breakpoint == Tablet)
    ensures (r.isDesktop <==> r.breakpoint == Desktop) && (r.isWide <==> r.breakpoint == Wide)
  {
    var bp := GetBreakpoint(b, size.width);
    WindowReport(size.width, size.height, bp, bp == Mobile, bp == Tablet, bp == Desktop, bp == Wide)
  }

  function CountTrue(flags: seq<bool>): nat {
    if |flags| == 0 then 0 else Count(flags[0]) + CountTrue(flags[1..])
  }

  function Count(b: bool): nat {
    if b then 1 else 0
  }

  lemma {:induction false} CountTrueFour(a: bool, b: bool, c: bool, d: bool)
    ensures CountTrue([a, b, c, d]) == Count(a) + Count(b) + Count(c) + Count(d)
  {
    var flags := [a, b, c, d];
    assert flags[1..] == [b, c, d];
    assert flags[1..][1..] == [c, d];
    assert flags[1..][1..][1..] == [d];
    assert flags[1..][1..][1..][1..] == [];
    assert CountTrue([d]) == Count(d);
    assert CountTrue([c, d]) == Count(c) + Count(d);
    assert CountTrue([b, c, d]) == Count(b) + Count(c) + Count(d);
  }

  /** Exactly one of the four flags is set. */
  lemma ExactlyOneFlag(b: Thresholds, size: Size)
    ensures var r := Report(b, size);
      CountTrue([r.isMobile, r.isTablet, r.isDesktop, r.isWide]) == 1
  {
    var r := Report(b, size);
    CountTrueFour(r.isMobile, r.isTablet, r.isDesktop, r.isWide);
  }
}
