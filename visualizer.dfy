/** The radial display: one spoke per band drawn into a character grid, each
    written cell taking the band's shade character and colour.

    The spoke geometry (angles, `cos`/`sin`, the aspect-ratio scaling and
    `round`) is a parameter `plot(band, step)` giving the cell a step of a
    spoke lands on; the grid is a two-dimensional array indexed [x, y]. */
module Visualizer {
  import Analysis
  import Colors

  const LightShade: char := '\U{2591}'
  const MediumShade: char := '\U{2592}'
  const DarkShade: char := '\U{2593}'
  const FullBlock: char := '\U{2588}'

  /** The widget: a copy of the band set to draw. */
  datatype RadialVisualizer = RadialVisualizer(bands: seq<real>)

  /** `RadialVisualizer::new`: keeps the given bands unchanged. */
  function NewVisualizer(bands: seq<real>): (v: RadialVisualizer)
    requires |bands| == Analysis.NumBands
    ensures v.bands == bands && |v.bands| == Analysis.NumBands
  {
    RadialVisualizer(bands)
  }

  /** `x as usize` for a float: truncation toward zero, negative values to 0. */
  function ToUsize(x: real): (n: nat)
    ensures x <= 0.0 ==> n == 0
    ensures x > 0.0 ==> n as real <= x < n as real + 1.0
  {
    if x <= 0.0 then 0 else x.Floor
  }

  // ---------------------------------------------------------------------------
  // Shade characters

  /** `intensity_char`: the shade of trunc(4·intensity), with 3 and above a full block. */
  function IntensityChar(intensity: real): (c: char)
    ensures intensity < 0.25 ==> c == LightShade
    ensures 0.25 <= intensity < 0.5 ==> c == MediumShade
    ensures 0.5 <= intensity < 0.75 ==> c == DarkShade
    ensures 0.75 <= intensity ==> c == FullBlock
    ensures IsShade(c)
  {
    match ToUsize(intensity * 4.0)
    case 0 => LightShade
    case 1 => MediumShade
    case 2 => DarkShade
    case _ => FullBlock
  }

  /** One of the four shade characters `intensity_char` can return. */
  predicate IsShade(c: char)
  {
    c == LightShade || c == MediumShade || c == DarkShade || c == FullBlock
  }

  /** How dark a shade character is: 0 for the lightest, 3 for the full block. */
  function Darkness(c: char): nat
  {
    if c == LightShade then 0
    else if c == MediumShade then 1
    else if c == DarkShade then 2
    else 3
  }

  /** A larger intensity never gives a lighter shade. */
  lemma IntensityCharMonotone(x: real, y: real)
    requires x <= y
    ensures Darkness(IntensityChar(x)) <= Darkness(IntensityChar(y))
  {
  }

  /** The three shades the unit tests pin down. */
  lemma IntensityCharSamples()
    ensures IntensityChar(0.0) == LightShade
    ensures IntensityChar(0.5) == DarkShade
    ensures IntensityChar(1.0) == FullBlock
  {
  }

  // ---------------------------------------------------------------------------
  // Drawing

  datatype Rect = Rect(x: nat, y: nat, width: nat, height: nat)

  datatype Color = Reset | Rgb(r: nat, g: nat, b: nat)

  /** A grid cell: its character and its foreground and background colours. */
  datatype Cell = Cell(symbol: char, fg: Color, bg: Color)

  /** The bounds check of `render`: (px, py) lies inside `area`. */
  predicate InArea(area: Rect, px: int, py: int)
    ensures InArea(area, px, py) ==> 0 <= px && 0 <= py && area.width > 0 && area.height > 0
  {
    px >= area.x && px < area.x + area.width && py >= area.y && py < area.y + area.height
  }

  function MinReal(a: real, b: real): real
  {
    if a <= b then a else b
  }

  /** The longest spoke: 90% of the smaller of half the width and the
      aspect-corrected half height. */
  function MaxRadius(area: Rect): (r: real)
    ensures 0.0 <= r
    ensures r <= 0.9 * (area.width / 2) as real && r <= 1.8 * (area.height / 2) as real
  {
    MinReal((area.width / 2) as real, (area.height / 2) as real * 2.0) * 0.9
  }

  /** The length of a band's spoke, `max_radius * (0.2 + intensity * 0.8)`
      written out as 20% of the radius plus 80% of radius·intensity: 20% of
      the radius at intensity 0, all of it at 1. */
  function SpokeLength(area: Rect, intensity: real): (length: real)
    ensures 0.0 <= intensity <= 1.0 ==> 0.2 * MaxRadius(area) <= length <= MaxRadius(area)
  {
    var radius := MaxRadius(area);
    var scaled := radius * intensity;
    assert 0.0 <= intensity <= 1.0 ==> 0.0 <= scaled <= radius by {
      if 0.0 <= intensity <= 1.0 {
        ScaledWithin(radius, intensity);
      }
    }
    0.2 * radius + 0.8 * scaled
  }

  /** Scaling a non-negative value by a factor in [0, 1] keeps it in [0, value]. */
  lemma ScaledWithin(m: real, x: real)
    requires 0.0 <= m && 0.0 <= x <= 1.0
    ensures 0.0 <= m * x <= m
  {
    assert m * (1.0 - x) >= 0.0;
  }

  /** The number of points a spoke attempts: its length truncated, at least 1. */
  function SpokeSteps(area: Rect, intensity: real): (n: nat)
    ensures n >= 1
    ensures SpokeLength(area, intensity) < 1.0 ==> n == 1
    ensures SpokeLength(area, intensity) >= 1.0 ==>
      n as real <= SpokeLength(area, intensity) < n as real + 1.0
  {
    var steps := ToUsize(SpokeLength(area, intensity));
    if steps >= 1 then steps else 1
  }

  /** The points of one band's spoke, in drawing order. */
  function Spoke(v: RadialVisualizer, area: Rect, band: nat): (ws: seq<(nat, nat)>)
    requires band < |v.bands|
    ensures |ws| == SpokeSteps(area, v.bands[band]) && |ws| >= 1
    ensures forall s :: 0 <= s < |ws| ==> ws[s] == (band, s)
  {
    seq(SpokeSteps(area, v.bands[band]), step => (band, step))
  }

  /** Every point `render` attempts for the first n bands, in drawing order:
      band by band, each spoke from the centre outward. */
  function Strokes(v: RadialVisualizer, area: Rect, n: nat): (ws: seq<(nat, nat)>)
    requires n <= |v.bands|
    ensures |ws| >= n
    ensures forall k :: 0 <= k < |ws| ==> ws[k].0 < n && ws[k].1 < SpokeSteps(area, v.bands[ws[k].0])
  {
    if n == 0 then [] else Strokes(v, area, n - 1) + Spoke(v, area, n - 1)
  }

  /** The attempted points come band by band and, within a band, step by
      step: they strictly increase in (band, step) order, so none repeats. */
  lemma {:induction false} StrokesOrdered(v: RadialVisualizer, area: Rect, n: nat)
    requires n <= |v.bands|
    ensures forall i, j :: 0 <= i < j < |Strokes(v, area, n)| ==>
      Strokes(v, area, n)[i].0 < Strokes(v, area, n)[j].0 ||
      (Strokes(v, area, n)[i].0 == Strokes(v, area, n)[j].0 && Strokes(v, area, n)[i].1 < Strokes(v, area, n)[j].1)
  {
    if n > 0 {
      StrokesOrdered(v, area, n - 1);
      var before := Strokes(v, area, n - 1);
      var spoke := Spoke(v, area, n - 1);
      var ws := Strokes(v, area, n);
      assert ws == before + spoke;
      forall i, j | 0 <= i < j < |ws|
        ensures ws[i].0 < ws[j].0 || (ws[i].0 == ws[j].0 && ws[i].1 < ws[j].1)
      {
        if j < |before| {
          assert ws[i] == before[i] && ws[j] == before[j];
        } else if i < |before| {
          assert ws[i] == before[i] && ws[j] == spoke[j - |before|];
        } else {
          assert ws[i] == spoke[i - |before|] && ws[j] == spoke[j - |before|];
        }
      }
    }
  }

  /** Every step of every one of the first n bands' spokes is attempted. */
  lemma {:induction false} StrokesCover(v: RadialVisualizer, area: Rect, n: nat, band: nat, step: nat)
    requires n <= |v.bands| && band < n && step < SpokeSteps(area, v.bands[band])
    ensures exists k :: 0 <= k < |Strokes(v, area, n)| && Strokes(v, area, n)[k] == (band, step)
  {
    var before := Strokes(v, area, n - 1);
    var ws := Strokes(v, area, n);
    assert ws == before + Spoke(v, area, n - 1);
    if band == n - 1 {
      assert ws[|before| + step] == (band, step);
    } else {
      StrokesCover(v, area, n - 1, band, step);
      var k :| 0 <= k < |before| && before[k] == (band, step);
      assert ws[k] == (band, step);
    }
  }

  /** What one write does to a cell: the shade of the band's intensity and
      the band's colour as foreground; the background is kept. */
  function Painted(cell: Cell, band: nat, intensity: real, toSrgb: Colors.Hsl -> Colors.Srgb): (p: Cell)
    ensures p.bg == cell.bg
    ensures p.symbol == IntensityChar(intensity) && IsShade(p.symbol)
    ensures p.fg.Rgb? && p.fg.r <= 255 && p.fg.g <= 255 && p.fg.b <= 255
  {
    var (r, g, b) := Colors.BandToColor(band, intensity, toSrgb);
    cell.(symbol := IntensityChar(intensity), fg := Rgb(r, g, b))
  }

  /** The point `ws[k]` is drawn at (px, py), and that cell is inside the area. */
  predicate Hits(ws: seq<(nat, nat)>, k: nat, px: int, py: int, area: Rect, plot: (nat, nat) -> (int, int))
    requires k < |ws|
  {
    plot(ws[k].0, ws[k].1) == (px, py) && InArea(area, px, py)
  }

  /** The cell at (px, py) after the points `ws` have been drawn in order. */
  function CellAfter(cell: Cell, px: int, py: int, ws: seq<(nat, nat)>, v: RadialVisualizer, area: Rect,
                     plot: (nat, nat) -> (int, int), toSrgb: Colors.Hsl -> Colors.Srgb): (r: Cell)
    requires forall k :: 0 <= k < |ws| ==> ws[k].0 < |v.bands|
    ensures r.bg == cell.bg
    ensures r == cell || (IsShade(r.symbol) && r.fg.Rgb?)
  {
    if |ws| == 0 then cell
    else
      var before := CellAfter(cell, px, py, ws[..|ws| - 1], v, area, plot, toSrgb);
      var band := ws[|ws| - 1].0;
      if Hits(ws, |ws| - 1, px, py, area, plot) then Painted(before, band, v.bands[band], toSrgb)
      else before
  }

  /** A cell that no drawn point hits inside the area, in particular every
      cell outside the area, is never modified; and no cell's background is. */
  lemma {:induction false} CellUnchangedUnlessHit(cell: Cell, px: int, py: int, ws: seq<(nat, nat)>, v: RadialVisualizer,
                                                  area: Rect, plot: (nat, nat) -> (int, int), toSrgb: Colors.Hsl -> Colors.Srgb)
    requires forall k :: 0 <= k < |ws| ==> ws[k].0 < |v.bands|
    ensures (forall k :: 0 <= k < |ws| ==> !Hits(ws, k, px, py, area, plot)) ==>
      CellAfter(cell, px, py, ws, v, area, plot, toSrgb) == cell
    ensures !InArea(area, px, py) ==> CellAfter(cell, px, py, ws, v, area, plot, toSrgb) == cell
    ensures CellAfter(cell, px, py, ws, v, area, plot, toSrgb).bg == cell.bg
  {
    if |ws| > 0 {
      var init := ws[..|ws| - 1];
      CellUnchangedUnlessHit(cell, px, py, init, v, area, plot, toSrgb);
      forall k | 0 <= k < |init| ensures Hits(init, k, px, py, area, plot) == Hits(ws, k, px, py, area, plot) {
        assert init[k] == ws[k];
      }
    }
  }

  /** A hit cell shows the shade and colour of the last point drawn on it. */
  lemma {:induction false} LastHitWins(cell: Cell, px: int, py: int, ws: seq<(nat, nat)>, v: RadialVisualizer, area: Rect,
                                       plot: (nat, nat) -> (int, int), toSrgb: Colors.Hsl -> Colors.Srgb, k: nat)
    requires forall j :: 0 <= j < |ws| ==> ws[j].0 < |v.bands|
    requires k < |ws| && Hits(ws, k, px, py, area, plot)
    requires forall j :: k < j < |ws| ==> !Hits(ws, j, px, py, area, plot)
    ensures CellAfter(cell, px, py, ws, v, area, plot, toSrgb).symbol == IntensityChar(v.bands[ws[k].0])
    ensures CellAfter(cell, px, py, ws, v, area, plot, toSrgb).fg ==
      var (r, g, b) := Colors.BandToColor(ws[k].0, v.bands[ws[k].0], toSrgb); Rgb(r, g, b)
  {
    if k < |ws| - 1 {
      var init := ws[..|ws| - 1];
      assert init[k] == ws[k];
      forall j | k < j < |init| ensures !Hits(init, j, px, py, area, plot) {
        assert init[j] == ws[j];
        assert !Hits(ws, j, px, py, area, plot);
      }
      LastHitWins(cell, px, py, init, v, area, plot, toSrgb, k);
    }
  }

  /** Drawing one more point changes only the cell it hits. */
  lemma CellAfterSnoc(cell: Cell, px: int, py: int, ws: seq<(nat, nat)>, w: (nat, nat), v: RadialVisualizer,
                      area: Rect, plot: (nat, nat) -> (int, int), toSrgb: Colors.Hsl -> Colors.Srgb)
    requires forall k :: 0 <= k < |ws| ==> ws[k].0 < |v.bands|
    requires w.0 < |v.bands|
    ensures CellAfter(cell, px, py, ws + [w], v, area, plot, toSrgb) ==
      if plot(w.0, w.1) == (px, py) && InArea(area, px, py)
      then Painted(CellAfter(cell, px, py, ws, v, area, plot, toSrgb), w.0, v.bands[w.0], toSrgb)
      else CellAfter(cell, px, py, ws, v, area, plot, toSrgb)
  {
    assert (ws + [w])[..|ws|] == ws;
  }

  /** Drawing `ws1` and then `ws2` leaves a cell as drawing `ws1 + ws2` does. */
  lemma {:induction false} CellAfterAppend(cell: Cell, px: int, py: int, ws1: seq<(nat, nat)>, ws2: seq<(nat, nat)>,
                                           v: RadialVisualizer, area: Rect, plot: (nat, nat) -> (int, int),
                                           toSrgb: Colors.Hsl -> Colors.Srgb)
    requires forall k :: 0 <= k < |ws1| ==> ws1[k].0 < |v.bands|
    requires forall k :: 0 <= k < |ws2| ==> ws2[k].0 < |v.bands|
    ensures CellAfter(cell, px, py, ws1 + ws2, v, area, plot, toSrgb) ==
      CellAfter(CellAfter(cell, px, py, ws1, v, area, plot, toSrgb), px, py, ws2, v, area, plot, toSrgb)
  {
    if |ws2| > 0 {
      var init := ws2[..|ws2| - 1];
      var w := ws2[|ws2| - 1];
      assert ws2 == init + [w];
      assert ws1 + ws2 == (ws1 + init) + [w];
      CellAfterAppend(cell, px, py, ws1, init, v, area, plot, toSrgb);
      CellAfterSnoc(cell, px, py, ws1 + init, w, v, area, plot, toSrgb);
      CellAfterSnoc(CellAfter(cell, px, py, ws1, v, area, plot, toSrgb), px, py, init, w, v, area, plot, toSrgb);
    } else {
      assert ws1 + ws2 == ws1;
    }
  }

  /** One write of `render`: the cell at (px, py) takes the symbol and the
      foreground colour when the point lies inside the area; nothing else changes. */
  method DrawPoint(buf: array2<Cell>, area: Rect, px: int, py: int, symbol: char, fg: Color)
    requires area.x + area.width <= buf.Length0 && area.y + area.height <= buf.Length1
    modifies buf
    ensures forall x, y :: 0 <= x < buf.Length0 && 0 <= y < buf.Length1 ==>
      buf[x, y] == if (x, y) == (px, py) && InArea(area, px, py)
                   then old(buf[x, y]).(symbol := symbol, fg := fg) else old(buf[x, y])
  {
    if InArea(area, px, py) {
      var cell := buf[px, py];
      buf[px, py] := cell.(symbol := symbol, fg := fg);
    }
  }

  /** The inner loop of `render` for one band: walks the spoke outward,
      drawing each point that lands inside the area. */
  method DrawSpoke(v: RadialVisualizer, area: Rect, buf: array2<Cell>, band: nat,
                   plot: (nat, nat) -> (int, int), toSrgb: Colors.Hsl -> Colors.Srgb)
    requires band < |v.bands|
    requires area.x + area.width <= buf.Length0 && area.y + area.height <= buf.Length1
    modifies buf
    ensures forall x, y :: 0 <= x < buf.Length0 && 0 <= y < buf.Length1 ==>
      buf[x, y] == CellAfter(old(buf[x, y]), x, y, Spoke(v, area, band), v, area, plot, toSrgb)
  {
    var intensity := v.bands[band];
    var (r, g, b) := Colors.BandToColor(band, intensity, toSrgb);
    var symbol := IntensityChar(intensity);
    var steps := SpokeSteps(area, intensity);
    ghost var spoke := Spoke(v, area, band);
    ghost var done: seq<(nat, nat)> := [];
    for step := 0 to steps
      invariant done == spoke[..step]
      invariant forall x, y :: 0 <= x < buf.Length0 && 0 <= y < buf.Length1 ==>
        buf[x, y] == CellAfter(old(buf[x, y]), x, y, done, v, area, plot, toSrgb)
    {
      var (px, py) := plot(band, step);
      label Before:
      DrawPoint(buf, area, px, py, symbol, Rgb(r, g, b));
      forall x, y | 0 <= x < buf.Length0 && 0 <= y < buf.Length1
        ensures buf[x, y] == CellAfter(old(buf[x, y]), x, y, done + [(band, step)], v, area, plot, toSrgb)
      {
        assert old@Before(buf[x, y]) == CellAfter(old(buf[x, y]), x, y, done, v, area, plot, toSrgb);
        CellAfterSnoc(old(buf[x, y]), x, y, done, (band, step), v, area, plot, toSrgb);
      }
      done := done + [(band, step)];
      assert done == spoke[..step + 1];
    }
    assert done == spoke;
  }

  /** `render`: draws every band's spoke in band order, writing a cell only
      when the point lies inside `area`; the final grid is `CellAfter` of the old one. */
  method Render(v: RadialVisualizer, area: Rect, buf: array2<Cell>,
                plot: (nat, nat) -> (int, int), toSrgb: Colors.Hsl -> Colors.Srgb)
    requires |v.bands| == Analysis.NumBands
    requires area.x + area.width <= buf.Length0 && area.y + area.height <= buf.Length1
    modifies buf
    ensures forall x, y :: 0 <= x < buf.Length0 && 0 <= y < buf.Length1 ==>
      buf[x, y] == CellAfter(old(buf[x, y]), x, y, Strokes(v, area, Analysis.NumBands), v, area, plot, toSrgb)
  {
    for band := 0 to Analysis.NumBands
      invariant forall x, y :: 0 <= x < buf.Length0 && 0 <= y < buf.Length1 ==>
        buf[x, y] == CellAfter(old(buf[x, y]), x, y, Strokes(v, area, band), v, area, plot, toSrgb)
    {
      label Before:
      DrawSpoke(v, area, buf, band, plot, toSrgb);
      forall x, y | 0 <= x < buf.Length0 && 0 <= y < buf.Length1
        ensures buf[x, y] == CellAfter(old(buf[x, y]), x, y, Strokes(v, area, band + 1), v, area, plot, toSrgb)
      {
        assert old@Before(buf[x, y]) == CellAfter(old(buf[x, y]), x, y, Strokes(v, area, band), v, area, plot, toSrgb);
        CellAfterAppend(old(buf[x, y]), x, y, Strokes(v, area, band), Spoke(v, area, band), v, area, plot, toSrgb);
      }
    }
  }
}
