/**
  Responsive value selection (src/lib/mq.js): the first defined value among
  the large, medium and small breakpoints whose `min-width` media query
  matches, else the default. `window.matchMedia("(min-width: Npx)")` is
  modelled as a comparison against an integer viewport width in CSS pixels,
  the `width` media feature of CSS Media Queries Level 3 (section 4.1).
 */
module MediaQuery {
  import opened Options

  /** A breakpoint: its `min-width` in pixels and its value, `None` when `undefined`. */
  datatype Breakpoint<T> = Breakpoint(minWidth: int, value: Option<T>)

  const LargeWidth := 1024
  const MediumWidth := 768
  const SmallWidth := 640

  /** The breakpoints in the order they are tried: lg, md, sm. */
  function Breakpoints<T>(sm: Option<T>, md: Option<T>, lg: Option<T>): seq<Breakpoint<T>> {
    [Breakpoint(LargeWidth, lg), Breakpoint(MediumWidth, md), Breakpoint(SmallWidth, sm)]
  }

  /** `(min-width: Npx)` matches a viewport at least N pixels wide. */
  predicate Matches(minWidth: int, width: int) {
    width >= minWidth
  }

  /** A breakpoint that can be chosen: its value is defined and its query matches. */
  predicate Eligible<T>(b: Breakpoint<T>, width: int) {
    b.value.Some? && Matches(b.minWidth, width)
  }

  /**
    The order-independent reading of the rule: the result is the value of
    the widest eligible breakpoint, or the default when none is eligible.
   */
  ghost predicate IsWidestEligible<T>(bps: seq<Breakpoint<T>>, width: int, defaultValue: T, r: T) {
    if exists b :: b in bps && Eligible(b, width) then
      exists b :: b in bps && Eligible(b, width) && r == b.value.value &&
                  forall c :: c in bps && Eligible(c, width) ==> c.minWidth <= b.minWidth
    else r == defaultValue
  }

  /** `mq(defaultValue, sm, md, lg)` for a viewport `width` pixels wide. */
  method Mq<T>(defaultValue: T, sm: Option<T>, md: Option<T>, lg: Option<T>, width: int) returns (r: T)
    ensures lg.Some? && width >= LargeWidth ==> r == lg.value
    ensures md.Some? && width >= MediumWidth && !(lg.Some? && width >= LargeWidth) ==> r == md.value
    ensures (&& sm.Some? && width >= SmallWidth
             && !(lg.Some? && width >= LargeWidth)
             && !(md.Some? && width >= MediumWidth)) ==> r == sm.value
    ensures (forall b :: b in Breakpoints(sm, md, lg) ==> !Eligible(b, width)) ==> r == defaultValue
    ensures sm.None? && md.None? && lg.None? ==> r == defaultValue
    ensures IsWidestEligible(Breakpoints(sm, md, lg), width, defaultValue, r)
  {
    var bps := Breakpoints(sm, md, lg);
    var i := 0;
    while i < |bps|
      invariant 0 <= i <= |bps|
      invariant forall j :: 0 <= j < i ==> !Eligible(bps[j], width)
    {
      if bps[i].value.Some? && Matches(bps[i].minWidth, width) {
        r := bps[i].value.value;
        assert Eligible(bps[i], width);
        assert i > 0 ==> !Eligible(bps[0], width);
        assert i > 1 ==> !Eligible(bps[1], width);
        return;
      }
      i := i + 1;
    }
    assert !Eligible(bps[0], width) && !Eligible(bps[1], width) && !Eligible(bps[2], width);
    r := defaultValue;
  }
}
