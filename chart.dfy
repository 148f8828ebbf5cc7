/**
 * The chart digitizer of scrape_1.js (`extractGraphValues`): a decoded canvas snapshot is
 * sampled in seven columns and each column is reduced to the height of its red line.
 */
module ChartDigitizer {
  import opened Wrappers
  import opened Seqs

  type Channel = x: int | 0 <= x < 256

  /** What `Jimp.intToRGBA` yields for one pixel. */
  datatype Rgba = Rgba(r: Channel, g: Channel, b: Channel, a: Channel)

  /** A raster: its size and the colour at every coordinate. `y == 0` is the top row. */
  datatype Raster = Raster(width: nat, height: nat, pixel: (nat, nat) -> Rgba)

  /** A decoded PNG is at least one pixel wide. */
  type Image = img: Raster | img.width >= 1
    witness Raster(1, 1, (x: nat, y: nat) => Rgba(0, 0, 0, 0))

  const SampleCount: nat := 7
  const RedAbove: int := 150
  const GreenBelow: int := 100
  const BlueBelow: int := 100

  /** A pixel of the chart's line colour. */
  predicate IsSignal(p: Rgba) {
    p.r > RedAbove && p.g < GreenBelow && p.b < BlueBelow
  }

  /**
   * `Math.floor(i * (width / 6))`, clamped to `width - 1`: always a column of the image, and the
   * clamp only takes effect for the last sample.
   */
  function SampleColumn(i: nat, width: nat): (x: nat)
    requires i < SampleCount && width >= 1
    ensures x <= width - 1
    ensures i < SampleCount - 1 ==> x == i * width / 6
    ensures i == SampleCount - 1 ==> x == width - 1
  {
    var x := i * width / 6;
    assert i < 6 ==> x < width by {
      if i < 6 {
        assert i * width <= 5 * width;
        assert x * 6 <= i * width;
      }
    }
    assert i == 6 ==> x == width;
    if x >= width then width - 1 else x
  }

  /** The rows `y < n` of column `x` whose pixel is signal, top to bottom. */
  function SignalRows(img: Raster, x: nat, n: nat): (rows: seq<nat>)
    ensures forall i, j :: 0 <= i < j < |rows| ==> rows[i] < rows[j]
    ensures forall i :: 0 <= i < |rows| ==> rows[i] < n
    ensures forall y: nat :: y in rows <==> y < n && IsSignal(img.pixel(x, y))
    decreases n
  {
    if n == 0 then []
    else SignalRows(img, x, n - 1) + (if IsSignal(img.pixel(x, n - 1)) then [n - 1] else [])
  }

  /** The signal rows above row `rows[k]` are exactly the first `k` signal rows. */
  lemma {:induction false} SignalRowsBelow(img: Raster, x: nat, n: nat, k: nat)
    requires k < |SignalRows(img, x, n)|
    ensures SignalRows(img, x, SignalRows(img, x, n)[k]) == SignalRows(img, x, n)[..k]
    decreases n
  {
    var rows := SignalRows(img, x, n);
    var prev := SignalRows(img, x, n - 1);
    assert rows[..|prev|] == prev;
    if k < |prev| {
      SignalRowsBelow(img, x, n - 1, k);
      assert rows[k] == prev[k];
      assert rows[..k] == prev[..k];
    } else {
      assert rows[k] == n - 1 && k == |prev|;
    }
  }

  /**
   * The row `extractGraphValues` reads the line from: the signal row at index floor(n/2) of the
   * n signal rows, so exactly floor(n/2) signal rows lie above it. None for a column with no signal.
   */
  function ChosenRow(img: Raster, x: nat): (y: Option<nat>)
    ensures y.None? <==> forall r: nat :: r < img.height ==> !IsSignal(img.pixel(x, r))
    ensures y.Some? ==> y.value < img.height && IsSignal(img.pixel(x, y.value))
    ensures y.Some? ==> |SignalRows(img, x, y.value)| == |SignalRows(img, x, img.height)| / 2
  {
    var rows := SignalRows(img, x, img.height);
    if |rows| > 0 then
      assert rows[|rows| / 2] in rows;
      SignalRowsBelow(img, x, img.height, |rows| / 2);
      Some(rows[|rows| / 2])
    else
      None
  }

  /**
   * The value of one sampled column: `1 - y/height` for the chosen row, 0 when the column has no
   * signal pixel. A value is 0 exactly when the column has no signal, and lies in (0, 1] otherwise.
   */
  function ColumnValue(img: Raster, x: nat): (v: real)
    ensures v == 0.0 <==> forall r: nat :: r < img.height ==> !IsSignal(img.pixel(x, r))
    ensures v == 0.0 || 0.0 < v <= 1.0
    ensures ChosenRow(img, x).Some? ==> v == Normalized(ChosenRow(img, x).value, img.height)
  {
    match ChosenRow(img, x)
    case None => 0.0
    case Some(y) => Normalized(y, img.height)
  }

  /** `1 - y/height`: the height of row `y` measured from the bottom, as a fraction. */
  function Normalized(y: nat, height: nat): (v: real)
    requires y < height
    ensures 0.0 < v <= 1.0
  {
    NormalizedInRange(y, height);
    1.0 - (y as real) / (height as real)
  }

  lemma NormalizedInRange(y: nat, height: nat)
    requires y < height
    ensures 0.0 < 1.0 - (y as real) / (height as real) <= 1.0
  {
    var h := height as real;
    assert (y as real) / h < 1.0 by {
      assert (y as real) < h;
      assert ((y as real) / h) * h == y as real;
    }
    assert (y as real) / h >= 0.0;
  }

  /** The seven column values, left to right, before the reversal. */
  function Columns(img: Image): (vs: seq<real>)
    ensures |vs| == SampleCount
    ensures forall i :: 0 <= i < SampleCount ==> vs[i] == ColumnValue(img, SampleColumn(i, img.width))
  {
    seq(SampleCount, i requires 0 <= i < SampleCount => ColumnValue(img, SampleColumn(i, img.width)))
  }

  /** What `extractGraphValues` returns: the column values in reverse order. */
  function Digitize(img: Image): seq<real> {
    Reversed(Columns(img))
  }

  /**
   * Exactly seven values; position k holds the value of sample column 6 - k: `1 - y/height` for
   * the chosen row y of that column, 0 for a column without signal. Every value is 0 or lies in (0, 1].
   */
  lemma DigitizeSpec(img: Image)
    ensures |Digitize(img)| == SampleCount
    ensures forall k :: 0 <= k < SampleCount ==>
      Digitize(img)[k] == ColumnValue(img, SampleColumn(SampleCount - 1 - k, img.width))
    ensures forall k :: 0 <= k < SampleCount ==>
      var y := ChosenRow(img, SampleColumn(SampleCount - 1 - k, img.width));
      && (y.None? ==> Digitize(img)[k] == 0.0)
      && (y.Some? ==> Digitize(img)[k] == Normalized(y.value, img.height))
    ensures forall k :: 0 <= k < SampleCount ==>
      Digitize(img)[k] == 0.0 || 0.0 < Digitize(img)[k] <= 1.0
  {
    forall k | 0 <= k < SampleCount
      ensures Digitize(img)[k] == ColumnValue(img, SampleColumn(SampleCount - 1 - k, img.width))
    {
      DigitizeAt(img, k);
    }
  }

  /** Position k of the digitized chart is column value 6 - k. */
  lemma DigitizeAt(img: Image, k: nat)
    requires k < SampleCount
    ensures |Digitize(img)| == SampleCount
    ensures Digitize(img)[k] == Columns(img)[SampleCount - 1 - k]
  {
    ReversedAt(Columns(img), k);
  }

  /** The inner loop: the rows of column `x` whose pixel is signal, scanned top to bottom. */
  method ScanColumn(img: Raster, x: nat) returns (redPixels: seq<nat>)
    ensures redPixels == SignalRows(img, x, img.height)
  {
    redPixels := [];
    for y := 0 to img.height
      invariant redPixels == SignalRows(img, x, y)
    {
      if IsSignal(img.pixel(x, y)) {
        redPixels := redPixels + [y];
      }
    }
  }

  /** The body of the outer loop: clamp the column, scan it, and normalise its middle signal row. */
  method SampleValue(img: Image, i: nat) returns (value: real)
    requires i < SampleCount
    ensures value == ColumnValue(img, SampleColumn(i, img.width))
    ensures ChosenRow(img, SampleColumn(i, img.width)).None? ==> value == 0.0
    ensures ChosenRow(img, SampleColumn(i, img.width)).Some? ==>
      value == Normalized(ChosenRow(img, SampleColumn(i, img.width)).value, img.height)
  {
    var x := i * img.width / 6;
    x := if x >= img.width then img.width - 1 else x;
    assert x == SampleColumn(i, img.width);
    var redPixels := ScanColumn(img, x);
    if |redPixels| > 0 {
      var midPixel := redPixels[|redPixels| / 2];
      value := 1.0 - (midPixel as real) / (img.height as real);
    } else {
      value := 0.0;
    }
  }

  /** `extractGraphValues`: samples seven columns, then reverses the list in place. */
  method ExtractGraphValues(img: Image) returns (values: seq<real>)
    ensures values == Digitize(img)
    ensures |values| == SampleCount
    ensures forall k :: 0 <= k < SampleCount ==>
      var y := ChosenRow(img, SampleColumn(SampleCount - 1 - k, img.width));
      && (y.None? ==> values[k] == 0.0)
      && (y.Some? ==> values[k] == Normalized(y.value, img.height))
  {
    var buffer := new real[SampleCount];
    for i := 0 to SampleCount
      invariant forall j :: 0 <= j < i ==> buffer[j] == ColumnValue(img, SampleColumn(j, img.width))
    {
      buffer[i] := SampleValue(img, i);
    }
    assert buffer[..] == Columns(img);
    Reverse(buffer);
    values := buffer[..];
    DigitizeSpec(img);
  }

  /** A chart whose line is drawn in row `row` of every column. */
  function LineAtRow(width: nat, height: nat, row: nat): Image
    requires width >= 1
  {
    Raster(width, height, (x: nat, y: nat) => if y == row then Rgba(200, 50, 50, 255) else Rgba(255, 255, 255, 255))
  }

  lemma {:induction false} SignalRowsOfLine(width: nat, height: nat, row: nat, x: nat, n: nat)
    requires width >= 1
    ensures SignalRows(LineAtRow(width, height, row), x, n) == if row < n then [row] else []
    decreases n
  {
    if n > 0 {
      SignalRowsOfLine(width, height, row, x, n - 1);
    }
  }

  /** A column whose only signal pixel is at `row` reads as `1 - row/height`. */
  lemma SingleSignalPixel(width: nat, height: nat, row: nat, x: nat)
    requires width >= 1 && row < height
    ensures ColumnValue(LineAtRow(width, height, row), x) == Normalized(row, height)
  {
    SignalRowsOfLine(width, height, row, x, height);
  }

  lemma Arith(row: nat, height: nat)
    requires height == 100 && row == 10
    ensures Normalized(row, height) == 0.9
  {
  }

  /** A single red pixel (200, 50, 50) at row 10 of a 100-row column gives 1 - 10/100 = 0.9. */
  lemma RowTenOfHundredScenario(width: nat, height: nat, row: nat, x: nat)
    requires width >= 1 && height == 100 && row == 10
    ensures ColumnValue(LineAtRow(width, height, row), x) == 0.9
  {
    var v := ColumnValue(LineAtRow(width, height, row), x);
    SingleSignalPixel(width, height, row, x);
    assert v == Normalized(row, height);
    Arith(row, height);
  }
}
