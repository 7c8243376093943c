/** Zooming and panning of one linear axis in jquery.flot.navigate.js. */
module Navigate {

  datatype Window = Window(min: real, max: real)

  datatype Direction = Across | Down

  datatype Bound = Open | At(value: real)

  /** A pair of bounds, each optional, or no setting at all, or `false`. */
  datatype Range = Unset | Off | Bounds(lo: Bound, hi: Bound)

  datatype Config = Config(direction: Direction, length: real, zoomRange: Range, panRange: Range)

  predicate ConfigOk(cfg: Config) {
    cfg.length > 0.0
  }

  // ---- between pixels and data ----

  function Low(w: Window): real {
    if w.min < w.max then w.min else w.max
  }

  function High(w: Window): real {
    if w.min < w.max then w.max else w.min
  }

  /** Pixels per unit, negative on an axis that points up. */
  function Scale(cfg: Config, w: Window): (s: real)
    requires ConfigOk(cfg) && w.min != w.max
    ensures s != 0.0
  {
    Positive(cfg.length, High(w) - Low(w));
    var s := cfg.length / (High(w) - Low(w));
    if cfg.direction == Across then s else -s
  }

  /** The data value at pixel zero. */
  function Origin(cfg: Config, w: Window): real {
    if cfg.direction == Across then Low(w) else High(w)
  }

  function ToCanvas(cfg: Config, w: Window, p: real): real
    requires ConfigOk(cfg) && w.min != w.max
  {
    (p - Origin(cfg, w)) * Scale(cfg, w)
  }

  function ToData(cfg: Config, w: Window, c: real): real
    requires ConfigOk(cfg) && w.min != w.max
  {
    Origin(cfg, w) + c / Scale(cfg, w)
  }

  // ---- what the calls do ----

  function FirstPixel(cfg: Config, center: real, amount: real): real
    requires ConfigOk(cfg) && amount != 0.0
  {
    center - (center / cfg.length) * cfg.length / amount
  }

  function LastPixel(cfg: Config, center: real, amount: real): real
    requires ConfigOk(cfg) && amount != 0.0
  {
    center + (1.0 - center / cfg.length) * cfg.length / amount
  }

  /** The part of the canvas that is to fill it. */
  function ZoomWindow(cfg: Config, w: Window, center: real, amount: real): Window
    requires ConfigOk(cfg) && w.min != w.max && amount != 0.0
  {
    var a, b := ToData(cfg, w, FirstPixel(cfg, center, amount)), ToData(cfg, w, LastPixel(cfg, center, amount));
    if a > b then Window(b, a) else Window(a, b)
  }

  /** The window cut down to a pan range. */
  function Clipped(w: Window, pr: Range): Window {
    if !pr.Bounds? then w
    else
      Window(if pr.lo.At? && w.min < pr.lo.value then pr.lo.value else w.min,
             if pr.hi.At? && w.max > pr.hi.value then pr.hi.value else w.max)
  }

  predicate Allowed(w: Window, zr: Range) {
    zr.Bounds? ==>
      (zr.lo.At? ==> w.max - w.min >= zr.lo.value) && (zr.hi.At? ==> w.max - w.min <= zr.hi.value)
  }

  function Zoomed(cfg: Config, w: Window, center: real, amount: real): Window
    requires ConfigOk(cfg) && w.min != w.max && amount != 0.0
  {
    if cfg.zoomRange.Off? then w
    else
      var z := Clipped(ZoomWindow(cfg, w, center, amount), cfg.panRange);
      if Allowed(z, cfg.zoomRange) then z else w
  }

  function Shifted(w: Window, d: real): Window {
    Window(w.min + d, w.max + d)
  }

  /** The window pushed off the walls, the low one first. */
  function Pushed(w: Window, pr: Range): Window
    requires pr.Bounds?
  {
    var v := if pr.lo.At? && pr.lo.value > w.min then Shifted(w, pr.lo.value - w.min) else w;
    if pr.hi.At? && pr.hi.value < v.max then Shifted(v, pr.hi.value - v.max) else v
  }

  function Panned(cfg: Config, w: Window, d: real): Window
    requires ConfigOk(cfg) && w.min != w.max
  {
    if cfg.panRange.Off? then w
    else
      var v := Window(ToData(cfg, w, ToCanvas(cfg, w, w.min) + d), ToData(cfg, w, ToCanvas(cfg, w, w.max) + d));
      if cfg.panRange.Bounds? then Pushed(v, cfg.panRange) else v
  }

  class Axis {
    var min: real
    var max: real
    const cfg: Config

    ghost predicate Valid() reads this {
      ConfigOk(cfg) && min != max
    }

    constructor (cfg: Config, min: real, max: real)
      requires ConfigOk(cfg) && min != max
      ensures Valid() && this.cfg == cfg && this.min == min && this.max == max
    {
      this.cfg, this.min, this.max := cfg, min, max;
    }

    /** `zoom` for this axis, about a pixel of it. */
    method Zoom(center: real, amount: real)
      requires Valid() && amount != 0.0
      modifies this
      ensures Window(min, max) == Zoomed(cfg, old(Window(min, max)), center, amount)
    {
      var pr, zr := cfg.panRange, cfg.zoomRange;
      if zr.Off? {
        return;
      }
      var lo := ToData(cfg, Window(min, max), FirstPixel(cfg, center, amount));
      var hi := ToData(cfg, Window(min, max), LastPixel(cfg, center, amount));
      if lo > hi {
        lo, hi := hi, lo;
      }
      if pr.Bounds? {
        if pr.lo.At? && lo < pr.lo.value {
          lo := pr.lo.value;
        }
        if pr.hi.At? && hi > pr.hi.value {
          hi := pr.hi.value;
        }
      }
      var range := hi - lo;
      if zr.Bounds? && ((zr.lo.At? && range < zr.lo.value) || (zr.hi.At? && range > zr.hi.value)) {
        return;
      }
      min, max := lo, hi;
    }

    /** `zoomOut`: a zoom by the reciprocal. */
    method ZoomOut(center: real, amount: real)
      requires Valid() && amount != 0.0
      modifies this
      ensures 1.0 / amount != 0.0 && Window(min, max) == Zoomed(cfg, old(Window(min, max)), center, 1.0 / amount)
    {
      NotZero(1.0, amount);
      Zoom(center, 1.0 / amount);
    }

    /** `pan` for this axis, by pixels. */
    method Pan(delta: real)
      requires Valid()
      modifies this
      ensures Valid() && Window(min, max) == Panned(cfg, old(Window(min, max)), delta)
    {
      var w, d, pr := Window(min, max), delta, cfg.panRange;
      var lo := ToData(cfg, w, ToCanvas(cfg, w, min) + d);
      var hi := ToData(cfg, w, ToCanvas(cfg, w, max) + d);
      PanShifts(cfg, w, delta);
      if pr.Off? {
        return;
      }
      if pr.Bounds? {
        if pr.lo.At? && pr.lo.value > lo {
          d := pr.lo.value - lo;
          lo, hi := lo + d, hi + d;
        }
        if pr.hi.At? && pr.hi.value < hi {
          d := pr.hi.value - hi;
          lo, hi := lo + d, hi + d;
        }
      }
      min, max := lo, hi;
    }
  }

  // ---- arithmetic ----

  lemma Positive(a: real, b: real)
    requires a > 0.0 && b > 0.0
    ensures a / b > 0.0
  {
  }

  lemma NotZero(a: real, b: real)
    requires a != 0.0 && b != 0.0
    ensures a / b != 0.0
  {
    assert (a / b) * b == a;
  }

  lemma Cancel(x: real, y: real, s: real)
    requires s != 0.0 && x * s == y * s
    ensures x == y
  {
    assert (x - y) * s == 0.0;
  }

  /** Dividing by a quotient. */
  lemma DivideByQuotient(c: real, a: real, b: real)
    requires a != 0.0 && b != 0.0
    ensures a / b != 0.0 && c / (a / b) == c * b / a
  {
    NotZero(a, b);
    var s, q, r := a / b, c / (a / b), c * b / a;
    assert s * b == a && q * s == c && r * a == c * b;
    assert q * a == q * (s * b) == (q * s) * b == c * b;
    Cancel(q, r, a);
  }

  lemma ShiftedQuotient(x: real, d: real, s: real)
    requires s != 0.0
    ensures (x * s + d) / s == x + d / s
  {
    var q := d / s;
    assert q * s == d;
    assert (x + q) * s == x * s + d;
    Cancel((x * s + d) / s, x + q, s);
  }

  // ---- panning ----

  lemma PanShifts(cfg: Config, w: Window, d: real)
    requires ConfigOk(cfg) && w.min != w.max
    ensures forall p :: ToData(cfg, w, ToCanvas(cfg, w, p) + d) == p + d / Scale(cfg, w)
  {
    forall p ensures ToData(cfg, w, ToCanvas(cfg, w, p) + d) == p + d / Scale(cfg, w) {
      ShiftedQuotient(p - Origin(cfg, w), d, Scale(cfg, w));
    }
  }

  predicate InPanRange(pr: Range, w: Window) {
    pr.Bounds? ==> (pr.lo.At? ==> pr.lo.value <= w.min) && (pr.hi.At? ==> w.max <= pr.hi.value)
  }

  /** The pan range, if it has both ends, is at least as wide as the window. */
  predicate Fits(pr: Range, w: Window) {
    pr.Bounds? && pr.lo.At? && pr.hi.At? ==> w.max - w.min <= pr.hi.value - pr.lo.value
  }

  /** Panning never changes the width; it ends inside the range exactly if the window fits there at all. */
  lemma PanMeaning(cfg: Config, w: Window, d: real)
    requires ConfigOk(cfg) && w.min != w.max
    ensures
      var v := Panned(cfg, w, d);
      && v.max - v.min == w.max - w.min
      && (cfg.panRange.Bounds? ==> (InPanRange(cfg.panRange, v) <==> Fits(cfg.panRange, w)))
      && (!cfg.panRange.Off? && InPanRange(cfg.panRange, Shifted(w, d / Scale(cfg, w))) ==>
            v == Shifted(w, d / Scale(cfg, w)))
  {
    PanShifts(cfg, w, d);
  }

  /** Where a pan ends: an axis that may not be panned stays; a window pushed over the high end of its range, or pushed
      there when it comes off the low end, ends at the high end; one pushed over the low end else ends at that; and any
      other moves as asked. */
  lemma PanEnds(cfg: Config, w: Window, d: real)
    requires ConfigOk(cfg) && w.min != w.max
    ensures
      var lo, hi := w.min + d / Scale(cfg, w), w.max + d / Scale(cfg, w);
      var pr, v := cfg.panRange, Panned(cfg, w, d);
      var low := pr.Bounds? && pr.lo.At? && lo < pr.lo.value;
      var high := pr.Bounds? && pr.hi.At? &&
                  (if low then pr.hi.value - pr.lo.value < w.max - w.min else pr.hi.value < hi);
      && v.max - v.min == w.max - w.min
      && (if pr.Off? then v == w
          else if high then v.max == pr.hi.value
          else if low then v.min == pr.lo.value
          else v == Window(lo, hi))
  {
    PanShifts(cfg, w, d);
  }

  // ---- zooming ----

  /** Data units per pixel. */
  function Unit(cfg: Config, w: Window): real
    requires ConfigOk(cfg)
  {
    (w.max - w.min) / cfg.length
  }

  lemma UnitOfLength(cfg: Config, w: Window)
    requires ConfigOk(cfg)
    ensures cfg.length * Unit(cfg, w) == w.max - w.min
  {
  }

  lemma MovedQuotient(c: real, a: real, b: real)
    requires b != 0.0
    ensures c * a / b == c * (a / b)
  {
    var q := a / b;
    assert q * b == a;
    assert (c * q) * b == c * (q * b);
    Cancel(c * a / b, c * q, b);
  }

  lemma NegativeQuotient(c: real, s: real)
    requires s != 0.0
    ensures c / (-s) == -(c / s)
  {
    var q := c / s;
    assert q * s == c;
    assert (-q) * (-s) == c;
    Cancel(c / (-s), -q, -s);
  }

  /** A pixel is one unit further along. */
  lemma DataAt(cfg: Config, w: Window, c: real)
    requires ConfigOk(cfg) && w.min < w.max
    ensures ToData(cfg, w, c) == if cfg.direction == Across then w.min + c * Unit(cfg, w) else w.max - c * Unit(cfg, w)
  {
    var s := cfg.length / (w.max - w.min);
    DivideByQuotient(c, cfg.length, w.max - w.min);
    MovedQuotient(c, w.max - w.min, cfg.length);
    NegativeQuotient(c, s);
  }

  lemma PixelAt(cfg: Config, center: real, amount: real)
    requires ConfigOk(cfg) && amount != 0.0
    ensures FirstPixel(cfg, center, amount) == center - center / amount
    ensures LastPixel(cfg, center, amount) == center + (cfg.length - center) / amount
  {
    var f := center / cfg.length;
    assert f * cfg.length == center;
    assert (1.0 - f) * cfg.length == cfg.length - center;
  }

  lemma ScaledPixel(c: real, x: real, amount: real, u: real)
    requires amount != 0.0
    ensures (c + x / amount) * u == c * u + x * u / amount
    ensures (c - x / amount) * u == c * u - x * u / amount
  {
    var q := x / amount;
    assert q * amount == x;
    assert (q * u) * amount == (q * amount) * u;
    Cancel(x * u / amount, q * u, amount);
  }

  /** Where the two outer pixels lie in the data, on an axis that runs across. */
  lemma ZoomAcross(cfg: Config, w: Window, center: real, amount: real)
    requires ConfigOk(cfg) && w.min < w.max && amount > 0.0 && cfg.direction == Across
    ensures
      var p := ToData(cfg, w, center);
      && ToData(cfg, w, FirstPixel(cfg, center, amount)) == p - (p - w.min) / amount
      && ToData(cfg, w, LastPixel(cfg, center, amount)) == p + (w.max - p) / amount
  {
    PixelAt(cfg, center, amount);
    DataAt(cfg, w, center);
    AcrossFirst(cfg, w, center, amount);
    AcrossLast(cfg, w, center, amount);
  }

  lemma AcrossFirst(cfg: Config, w: Window, center: real, amount: real)
    requires ConfigOk(cfg) && w.min < w.max && amount > 0.0 && cfg.direction == Across
    ensures
      var p := w.min + center * Unit(cfg, w);
      ToData(cfg, w, center - center / amount) == p - (p - w.min) / amount
  {
    DataAt(cfg, w, center - center / amount);
    ScaledPixel(center, center, amount, Unit(cfg, w));
  }

  lemma AcrossLast(cfg: Config, w: Window, center: real, amount: real)
    requires ConfigOk(cfg) && w.min < w.max && amount > 0.0 && cfg.direction == Across
    ensures
      var p := w.min + center * Unit(cfg, w);
      ToData(cfg, w, center + (cfg.length - center) / amount) == p + (w.max - p) / amount
  {
    var u := Unit(cfg, w);
    DataAt(cfg, w, center + (cfg.length - center) / amount);
    ScaledPixel(center, cfg.length - center, amount, u);
    UnitOfLength(cfg, w);
    assert (cfg.length - center) * u == cfg.length * u - center * u;
  }

  /** The same on an axis that points up. */
  lemma ZoomDown(cfg: Config, w: Window, center: real, amount: real)
    requires ConfigOk(cfg) && w.min < w.max && amount > 0.0 && cfg.direction == Down
    ensures
      var p := ToData(cfg, w, center);
      && ToData(cfg, w, FirstPixel(cfg, center, amount)) == p + (w.max - p) / amount
      && ToData(cfg, w, LastPixel(cfg, center, amount)) == p - (p - w.min) / amount
  {
    PixelAt(cfg, center, amount);
    DataAt(cfg, w, center);
    DownFirst(cfg, w, center, amount);
    DownLast(cfg, w, center, amount);
  }

  lemma DownFirst(cfg: Config, w: Window, center: real, amount: real)
    requires ConfigOk(cfg) && w.min < w.max && amount > 0.0 && cfg.direction == Down
    ensures
      var p := w.max - center * Unit(cfg, w);
      ToData(cfg, w, center - center / amount) == p + (w.max - p) / amount
  {
    DataAt(cfg, w, center - center / amount);
    ScaledPixel(center, center, amount, Unit(cfg, w));
  }

  lemma DownLast(cfg: Config, w: Window, center: real, amount: real)
    requires ConfigOk(cfg) && w.min < w.max && amount > 0.0 && cfg.direction == Down
    ensures
      var p := w.max - center * Unit(cfg, w);
      ToData(cfg, w, center + (cfg.length - center) / amount) == p - (p - w.min) / amount
  {
    var u := Unit(cfg, w);
    DataAt(cfg, w, center + (cfg.length - center) / amount);
    ScaledPixel(center, cfg.length - center, amount, u);
    UnitOfLength(cfg, w);
    assert (cfg.length - center) * u == cfg.length * u - center * u;
  }

  /** The window that has every distance from `p` divided by `amount`. */
  function About(w: Window, p: real, amount: real): Window
    requires amount != 0.0
  {
    Window(p - (p - w.min) / amount, p + (w.max - p) / amount)
  }

  lemma AboutWidth(w: Window, p: real, amount: real)
    requires amount > 0.0 && w.min < w.max
    ensures About(w, p, amount).max - About(w, p, amount).min == (w.max - w.min) / amount > 0.0
  {
    Positive(w.max - w.min, amount);
    assert (p - w.min) / amount * amount + (w.max - p) / amount * amount == w.max - w.min;
    Cancel((p - w.min) / amount + (w.max - p) / amount, (w.max - w.min) / amount, amount);
  }

  /** A zoom divides all distances from the data value under the centre, in both directions alike. */
  lemma ZoomMeaning(cfg: Config, w: Window, center: real, amount: real)
    requires ConfigOk(cfg) && w.min < w.max && amount > 0.0
    ensures ZoomWindow(cfg, w, center, amount) == About(w, ToData(cfg, w, center), amount)
  {
    AboutWidth(w, ToData(cfg, w, center), amount);
    if cfg.direction == Across { ZoomAcross(cfg, w, center, amount); } else { ZoomDown(cfg, w, center, amount); }
  }

  /** Where a zoom ends: the window about the centre, its ends moved inside the pan range, unless zooming is off or the
      zoom range does not allow the width that comes out; then the window stays. */
  lemma ZoomEnds(cfg: Config, w: Window, center: real, amount: real)
    requires ConfigOk(cfg) && w.min < w.max && amount > 0.0
    ensures
      var p, v := ToData(cfg, w, center), Zoomed(cfg, w, center, amount);
      var lo, hi := p - (p - w.min) / amount, p + (w.max - p) / amount;
      var pr, zr := cfg.panRange, cfg.zoomRange;
      var from := if pr.Bounds? && pr.lo.At? && lo < pr.lo.value then pr.lo.value else lo;
      var to := if pr.Bounds? && pr.hi.At? && hi > pr.hi.value then pr.hi.value else hi;
      var allowed := zr.Bounds? ==>
        (zr.lo.At? ==> to - from >= zr.lo.value) && (zr.hi.At? ==> to - from <= zr.hi.value);
      v == if !zr.Off? && allowed then Window(from, to) else w
  {
    ZoomMeaning(cfg, w, center, amount);
  }

  /** What lies under the centre stays there. */
  lemma CentreStays(cfg: Config, w: Window, center: real, amount: real)
    requires ConfigOk(cfg) && w.min < w.max && amount > 0.0
    ensures
      var v := ZoomWindow(cfg, w, center, amount);
      v.min < v.max && ToData(cfg, v, center) == ToData(cfg, w, center)
  {
    var p := ToData(cfg, w, center);
    var v := About(w, p, amount);
    ZoomMeaning(cfg, w, center, amount);
    AboutWidth(w, p, amount);
    DataAt(cfg, w, center);
    DataAt(cfg, v, center);
    UnitShrinks(cfg, w, v, center, amount);
  }

  lemma UnitShrinks(cfg: Config, w: Window, v: Window, c: real, amount: real)
    requires ConfigOk(cfg) && amount > 0.0 && v.max - v.min == (w.max - w.min) / amount
    ensures c * Unit(cfg, v) == c * Unit(cfg, w) / amount
  {
    var u := Unit(cfg, w);
    UnitOfLength(cfg, v);
    UnitOfLength(cfg, w);
    assert cfg.length * Unit(cfg, v) * amount == cfg.length * u;
    Cancel(Unit(cfg, v) * amount, u, cfg.length);
    assert c * Unit(cfg, v) * amount == c * u;
    Cancel(c * Unit(cfg, v), c * u / amount, amount);
  }

  lemma Undivided(x: real, amount: real)
    requires amount > 0.0
    ensures 1.0 / amount > 0.0 && (x / amount) / (1.0 / amount) == x
  {
    Positive(1.0, amount);
    var r := 1.0 / amount;
    assert r * amount == 1.0;
    assert x / amount * amount == x;
    assert x * r * amount == x;
    Cancel(x / amount, x * r, amount);
  }

  /** With no ranges set, zooming and zooming out about the same pixel gives the window back. */
  lemma ZoomThenOut(cfg: Config, w: Window, center: real, amount: real)
    requires ConfigOk(cfg) && w.min < w.max && amount > 0.0
    requires cfg.zoomRange.Unset? && cfg.panRange.Unset?
    ensures
      var v := Zoomed(cfg, w, center, amount);
      v.min < v.max && 1.0 / amount > 0.0 && Zoomed(cfg, v, center, 1.0 / amount) == w
  {
    var p := ToData(cfg, w, center);
    var v := About(w, p, amount);
    ZoomMeaning(cfg, w, center, amount);
    AboutWidth(w, p, amount);
    CentreStays(cfg, w, center, amount);
    Undivided(p - w.min, amount);
    Undivided(w.max - p, amount);
    ZoomMeaning(cfg, v, center, 1.0 / amount);
  }

  // ---- what every run keeps ----

  datatype Op = ZoomBy(center: real, amount: real) | ZoomOutBy(center: real, amount: real) | PanBy(delta: real)

  /** A zoom by a positive amount about a pixel of the plot, or any pan. */
  predicate OpOk(cfg: Config, op: Op) {
    !op.PanBy? ==> op.amount > 0.0 && 0.0 <= op.center <= cfg.length
  }

  /** The window is in the pan range and of a width the zoom range allows. */
  predicate InRanges(cfg: Config, w: Window) {
    w.min < w.max && InPanRange(cfg.panRange, w) && Allowed(w, cfg.zoomRange)
  }

  lemma CentreInside(cfg: Config, w: Window, center: real)
    requires ConfigOk(cfg) && w.min < w.max && 0.0 <= center <= cfg.length
    ensures w.min <= ToData(cfg, w, center) <= w.max
  {
    var u := Unit(cfg, w);
    DataAt(cfg, w, center);
    UnitOfLength(cfg, w);
    Positive(w.max - w.min, cfg.length);
    assert center * u >= 0.0;
    assert (cfg.length - center) * u >= 0.0;
    assert (cfg.length - center) * u == cfg.length * u - center * u;
  }

  lemma Shrunk(x: real, amount: real)
    requires x >= 0.0 && amount > 0.0
    ensures x / amount >= 0.0 && (x > 0.0 ==> x / amount > 0.0)
  {
  }

  lemma ZoomKeeps(cfg: Config, w: Window, center: real, amount: real)
    requires ConfigOk(cfg) && InRanges(cfg, w) && amount > 0.0 && 0.0 <= center <= cfg.length
    ensures InRanges(cfg, Zoomed(cfg, w, center, amount))
  {
    var p := ToData(cfg, w, center);
    var v := ZoomWindow(cfg, w, center, amount);
    ZoomMeaning(cfg, w, center, amount);
    CentreInside(cfg, w, center);
    Shrunk(p - w.min, amount);
    Shrunk(w.max - p, amount);
    ClipKeeps(cfg.panRange, w, v, p);
  }

  lemma ClipKeeps(pr: Range, w: Window, v: Window, p: real)
    requires InPanRange(pr, w) && w.min <= p <= w.max && w.min < w.max && v.min <= p <= v.max
    requires (w.min < p ==> v.min < p) && (p < w.max ==> p < v.max)
    ensures Clipped(v, pr).min < Clipped(v, pr).max && InPanRange(pr, Clipped(v, pr))
  {
  }

  function Step(cfg: Config, w: Window, op: Op): Window
    requires ConfigOk(cfg) && OpOk(cfg, op) && w.min != w.max
  {
    match op
    case ZoomBy(c, a) => Zoomed(cfg, w, c, a)
    case ZoomOutBy(c, a) => NotZero(1.0, a); Zoomed(cfg, w, c, 1.0 / a)
    case PanBy(d) => Panned(cfg, w, d)
  }

  lemma StepKeeps(cfg: Config, w: Window, op: Op)
    requires ConfigOk(cfg) && OpOk(cfg, op) && InRanges(cfg, w)
    ensures InRanges(cfg, Step(cfg, w, op))
  {
    match op
    case ZoomBy(c, a) => ZoomKeeps(cfg, w, c, a);
    case ZoomOutBy(c, a) =>
      Positive(1.0, a);
      ZoomKeeps(cfg, w, c, 1.0 / a);
    case PanBy(d) => PanMeaning(cfg, w, d);
  }

  /** The windows of a run, each made from the one before by its call. */
  predicate IsRun(cfg: Config, ws: seq<Window>, ops: seq<Op>)
    requires ConfigOk(cfg)
  {
    && |ws| == |ops| + 1
    && forall i :: 0 <= i < |ops| ==> OpOk(cfg, ops[i]) && ws[i].min != ws[i].max
                                           && ws[i + 1] == Step(cfg, ws[i], ops[i])
  }

  /** A window that starts in its ranges never leaves them. */
  lemma {:induction false} RunStaysInRanges(cfg: Config, ws: seq<Window>, ops: seq<Op>, n: nat)
    requires ConfigOk(cfg) && IsRun(cfg, ws, ops) && InRanges(cfg, ws[0]) && n <= |ops|
    ensures InRanges(cfg, ws[n])
  {
    if n > 0 {
      RunStaysInRanges(cfg, ws, ops, n - 1);
      StepKeeps(cfg, ws[n - 1], ops[n - 1]);
    }
  }

  /** A window and a pan range have nothing in common, or the range itself is empty. */
  predicate Misses(z: Window, pr: Range) {
    && pr.Bounds?
    && (|| (pr.lo.At? && z.max < pr.lo.value) || (pr.hi.At? && z.min > pr.hi.value)
        || (pr.lo.At? && pr.hi.At? && pr.lo.value > pr.hi.value))
  }

  /** A zoom turns its window inside out exactly if zooming is on, what it zooms to misses the pan range, and the
      zoom range lets the negative width pass. */
  lemma ZoomInvertsIf(cfg: Config, w: Window, center: real, amount: real)
    requires ConfigOk(cfg) && w.min < w.max && amount > 0.0
    ensures
      var z, v := About(w, ToData(cfg, w, center), amount), Zoomed(cfg, w, center, amount);
      v.min > v.max <==>
        !cfg.zoomRange.Off? && Misses(z, cfg.panRange) && Allowed(Clipped(z, cfg.panRange), cfg.zoomRange)
  {
    ZoomMeaning(cfg, w, center, amount);
    AboutWidth(w, ToData(cfg, w, center), amount);
  }

  /** An instance: from 5 to 6, right of a pan range from 0 to 1, a zoom by 1 ends from 5 to 1. */
  lemma ZoomInstance()
    ensures
      var cfg := Config(Across, 1.0, Unset, Bounds(At(0.0), At(1.0)));
      Zoomed(cfg, Window(5.0, 6.0), 0.0, 1.0).min > Zoomed(cfg, Window(5.0, 6.0), 0.0, 1.0).max
  {
    var cfg, w := Config(Across, 1.0, Unset, Bounds(At(0.0), At(1.0))), Window(5.0, 6.0);
    var d := ToData(cfg, w, 0.0);
    assert About(w, d, 1.0) == w;
    ZoomInvertsIf(cfg, w, 0.0, 1.0);
  }
}
