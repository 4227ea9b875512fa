/** The scan lines of an 8-bit PNG: the filters of section 6 of RFC 2083, and undoing them in place. */
module Png {

  type Byte = b: int | 0 <= b < 256

  datatype Pixel = Pixel(r: Byte, g: Byte, b: Byte, a: Byte)

  function Abs(n: int): nat {
    if n < 0 then -n else n
  }

  /** The predictor of section 6.6: the nearest of left, above and upper left to `left + up - corner`, ties broken in
      that order. */
  function Paeth(left: int, up: int, corner: int): int {
    var p := left + up - corner;
    var pa, pb, pc := Abs(p - left), Abs(p - up), Abs(p - corner);
    if pa <= pb && pa <= pc then left else if pb <= pc then up else corner
  }

  /** A triple of the decoder: distance, rank and value. */
  datatype Candidate = Candidate(distance: int, rank: int, value: int)

  predicate Before(a: Candidate, b: Candidate) {
    a.distance < b.distance
    || (a.distance == b.distance && (a.rank < b.rank || (a.rank == b.rank && a.value < b.value)))
  }

  /** The first of the least, as `min` takes it. */
  function Least(a: Candidate, b: Candidate, c: Candidate): Candidate {
    var m := if Before(b, a) then b else a;
    if Before(c, m) then c else m
  }

  function Nearest(left: int, up: int, corner: int): int {
    var guess := left + up - corner;
    Least(Candidate(Abs(guess - left), 0, left), Candidate(Abs(guess - up), 1, up),
          Candidate(Abs(guess - corner), 2, corner)).value
  }

  /** The least triple is the predictor, ties and all. */
  lemma NearestIsPaeth(left: int, up: int, corner: int)
    ensures Nearest(left, up, corner) == Paeth(left, up, corner)
  {
  }

  /** What a filter subtracts: types 1 to 4 are Sub, Up, Average and Paeth; any other predicts nothing. */
  function Predict(kind: int, left: int, up: int, corner: int): int {
    if kind == 1 then left
    else if kind == 2 then up
    else if kind == 3 then (left + up) / 2
    else if kind == 4 then Paeth(left, up, corner)
    else 0
  }

  /** The byte `channels` before `x`, zero to the left of the line. */
  function Behind(line: seq<Byte>, x: int, channels: nat): Byte
    requires 0 <= x <= |line| && channels > 0
  {
    if x >= channels then line[x - channels] else 0
  }

  // ----- Filtering -----

  function FilteredByte(kind: int, line: seq<Byte>, above: seq<Byte>, channels: nat, x: int): Byte
    requires 0 <= x < |line| == |above| && channels > 0
  {
    (line[x] - Predict(kind, Behind(line, x, channels), above[x], Behind(above, x, channels))) % 256
  }

  function Filtered(kind: int, line: seq<Byte>, above: seq<Byte>, channels: nat): seq<Byte>
    requires |line| == |above| && channels > 0
  {
    seq(|line|, x requires 0 <= x < |line| => FilteredByte(kind, line, above, channels, x))
  }

  // ----- Undoing a filter -----

  /** The first `n` bytes of the line, each from those before it. */
  function Unfiltered(kind: int, data: seq<Byte>, above: seq<Byte>, channels: nat, n: nat): (line: seq<Byte>)
    requires n <= |data| == |above| && channels > 0
    ensures |line| == n
    decreases n
  {
    if n == 0 then []
    else
      var done := Unfiltered(kind, data, above, channels, n - 1);
      done + [UndoneByte(kind, data[n - 1], done, above, channels)]
  }

  /** The next byte of a line that is undone up to it. */
  function UndoneByte(kind: int, filtered: Byte, done: seq<Byte>, above: seq<Byte>, channels: nat): Byte
    requires |done| < |above| && channels > 0
  {
    (filtered + Predict(kind, Behind(done, |done|, channels), above[|done|], Behind(above, |done|, channels))) % 256
  }

  lemma AddBack(a: Byte, p: int)
    ensures ((a - p) % 256 + p) % 256 == a
  {
    var q := (a - p) / 256;
    assert (a - p) % 256 == a - p - 256 * q;
    assert (a - 256 * q) % 256 == a % 256;
  }

  /** Undoing a filter gives the line back, whatever the type and the line above. */
  lemma {:induction false} UnfilterInvertsFilter(kind: int, line: seq<Byte>, above: seq<Byte>, channels: nat, n: nat)
    requires n <= |line| == |above| && channels > 0
    ensures Unfiltered(kind, Filtered(kind, line, above, channels), above, channels, n) == line[..n]
    decreases n
  {
    if n > 0 {
      UnfilterInvertsFilter(kind, line, above, channels, n - 1);
      var x := n - 1;
      assert Behind(line[..x], x, channels) == Behind(line, x, channels);
      AddBack(line[x], Predict(kind, Behind(line, x, channels), above[x], Behind(above, x, channels)));
      assert line[..n] == line[..x] + [line[x]];
      hide Predict;
    }
  }

  /** The unfilter loop: each byte in place, from the ones already undone to its left and the line above. */
  method UnfilterLine(kind: int, line: array<Byte>, previous: array<Byte>, channels: nat)
    requires line.Length == previous.Length && line != previous && channels > 0
    modifies line
    ensures line[..] == Unfiltered(kind, old(line[..]), previous[..], channels, line.Length)
  {
    ghost var data, above := line[..], previous[..];
    for x := 0 to line.Length
      invariant line[..x] == Unfiltered(kind, data, above, channels, x)
      invariant line[x..] == data[x..]
      invariant previous[..] == above
    {
      var left: int := if x >= channels then line[x - channels] else 0;
      var up: int := previous[x];
      var corner: int := if x >= channels then previous[x - channels] else 0;
      ghost var done := line[..x];
      assert left == Behind(done, x, channels) && corner == Behind(above, x, channels) && up == above[x];
      assert line[x] == line[x..][0] == data[x];
      var undone := Undo(kind, line[x], left, up, corner);
      assert undone == UndoneByte(kind, data[x], done, above, channels);
      line[x] := undone;
      assert line[..x + 1] == done + [undone];
      assert line[x + 1..] == data[x + 1..] by { assert line[x + 1..] == old(line[..])[x + 1..]; }
      hide UndoneByte;
    }
    assert line[..line.Length] == line[..];
  }

  /** One byte, as the chain of method tests computes it. */
  method Undo(kind: int, value: Byte, left: int, up: int, corner: int) returns (undone: Byte)
    ensures undone == (value + Predict(kind, left, up, corner)) % 256
  {
    if kind == 1 {
      undone := (value + left) % 256;
    } else if kind == 2 {
      undone := (value + up) % 256;
    } else if kind == 3 {
      undone := (value + (left + up) / 2) % 256;
    } else if kind == 4 {
      NearestIsPaeth(left, up, corner);
      undone := (value + Nearest(left, up, corner)) % 256;
    } else {
      undone := value;
    }
  }

  // ----- Whole images -----

  function Zeros(n: nat): seq<Byte> {
    seq(n, _ => 0)
  }

  /** Each line with its filter type before it, the way the compressed data holds them. */
  function FilterRows(rows: seq<seq<Byte>>, kinds: seq<Byte>, above: seq<Byte>, channels: nat): seq<Byte>
    requires |kinds| == |rows| && channels > 0
    requires forall i | 0 <= i < |rows| :: |rows[i]| == |above|
  {
    if rows == [] then []
    else
      [kinds[0]] + Filtered(kinds[0], rows[0], above, channels)
      + FilterRows(rows[1..], kinds[1..], rows[0], channels)
  }

  /** The rows of the data, `height` of them. */
  function Rows(raw: seq<Byte>, height: nat, above: seq<Byte>, channels: nat): (rows: seq<seq<Byte>>)
    requires channels > 0 && |raw| >= height * (|above| + 1)
    ensures |rows| == height && forall i | 0 <= i < height :: |rows[i]| == |above|
    decreases height
  {
    if height == 0 then []
    else
      Short(|raw|, height, |above|);
      var line := Unfiltered(raw[0], raw[1..|above| + 1], above, channels, |above|);
      [line] + Rows(raw[|above| + 1..], height - 1, line, channels)
  }

  lemma Short(n: nat, height: nat, stride: nat)
    requires height > 0 && n >= height * (stride + 1)
    ensures n >= stride + 1 && n - (stride + 1) >= (height - 1) * (stride + 1)
  {
    assert height * (stride + 1) == (height - 1) * (stride + 1) + (stride + 1);
  }

  lemma {:induction false} FilteredSize(rows: seq<seq<Byte>>, kinds: seq<Byte>, above: seq<Byte>, channels: nat)
    requires |kinds| == |rows| && channels > 0
    requires forall i | 0 <= i < |rows| :: |rows[i]| == |above|
    ensures |FilterRows(rows, kinds, above, channels)| == |rows| * (|above| + 1)
    decreases |rows|
  {
    if rows != [] {
      FilteredSize(rows[1..], kinds[1..], rows[0], channels);
      assert |rows| * (|above| + 1) == (|rows| - 1) * (|above| + 1) + (|above| + 1);
    }
  }

  /** Undoing the filters of an image gives its rows back, whatever filter each row was given. */
  lemma {:induction false} RowsInvertFilterRows(rows: seq<seq<Byte>>, kinds: seq<Byte>, above: seq<Byte>, channels: nat)
    requires |kinds| == |rows| && channels > 0
    requires forall i | 0 <= i < |rows| :: |rows[i]| == |above|
    ensures |FilterRows(rows, kinds, above, channels)| == |rows| * (|above| + 1)
    ensures Rows(FilterRows(rows, kinds, above, channels), |rows|, above, channels) == rows
    decreases |rows|
  {
    FilteredSize(rows, kinds, above, channels);
    if rows != [] {
      var raw := FilterRows(rows, kinds, above, channels);
      var rest := FilterRows(rows[1..], kinds[1..], rows[0], channels);
      var data := Filtered(kinds[0], rows[0], above, channels);
      assert raw == [kinds[0]] + data + rest;
      hide Filtered, Unfiltered, FilterRows, Rows;
      UnfilterInvertsFilter(kinds[0], rows[0], above, channels, |above|);
      assert rows[0][..|above|] == rows[0];
      RowsInvertFilterRows(rows[1..], kinds[1..], rows[0], channels);
      RowsGoOn(raw, 0, |rows|, above, channels);
      assert raw[1..1 + |above|] == data && raw[|above| + 1..] == rest && raw[0] == kinds[0] && raw[0..] == raw;
      assert rows == [rows[0]] + rows[1..];
    } else {
      assert FilterRows(rows, kinds, above, channels) == [];
    }
  }

  lemma RowsGoOn(raw: seq<Byte>, start: nat, height: nat, above: seq<Byte>, channels: nat)
    requires channels > 0 && start <= |raw| && |raw| - start >= height * (|above| + 1) && height > 0
    ensures var stride := |above|;
            && start + stride + 1 <= |raw| && |raw| - (start + stride + 1) >= (height - 1) * (stride + 1)
            && var line := Unfiltered(raw[start], raw[start + 1..start + 1 + stride], above, channels, stride);
            Rows(raw[start..], height, above, channels)
            == [line] + Rows(raw[start + stride + 1..], height - 1, line, channels)
  {
    var rest := raw[start..];
    Short(|rest|, height, |above|);
    assert rest[1..|above| + 1] == raw[start + 1..start + 1 + |above|] && rest[0] == raw[start];
    assert rest[|above| + 1..] == raw[start + |above| + 1..];
    hide Unfiltered;
  }

  /** The row loop of `read_png`, on data as long as the header says. */
  method ReadRows(raw: seq<Byte>, height: nat, stride: nat, channels: nat) returns (rows: seq<seq<Byte>>)
    requires channels > 0 && |raw| >= height * (stride + 1)
    ensures rows == Rows(raw, height, Zeros(stride), channels)
  {
    hide Rows, Unfiltered;
    rows := [];
    var previous := new Byte[stride](_ => 0);
    assert previous[..] == Zeros(stride);
    assert raw[0..] == raw;
    var start := 0;
    for y := 0 to height
      invariant previous.Length == stride && fresh(previous)
      invariant start == y * (stride + 1) <= |raw| && |raw| - start >= (height - y) * (stride + 1)
      invariant rows + Rows(raw[start..], height - y, previous[..], channels)
             == Rows(raw, height, Zeros(stride), channels)
    {
      RowsGoOn(raw, start, height - y, previous[..], channels);
      var data := raw[start + 1..start + 1 + stride];
      var line := new Byte[stride](x requires 0 <= x < stride => data[x]);
      assert line[..] == data;
      UnfilterLine(raw[start], line, previous, channels);
      ghost var more := Rows(raw[start + stride + 1..], height - y - 1, line[..], channels);
      assert rows + ([line[..]] + more) == rows + [line[..]] + more;
      rows := rows + [line[..]];
      NextStart(y, stride);
      start := start + stride + 1;
      previous := line;
    }
    NoRows(raw[start..], previous[..], channels);
    assert rows + [] == rows;
  }

  lemma NextStart(y: nat, stride: nat)
    ensures (y + 1) * (stride + 1) == y * (stride + 1) + stride + 1
  {
  }

  lemma NoRows(raw: seq<Byte>, above: seq<Byte>, channels: nat)
    requires channels > 0
    ensures Rows(raw, 0, above, channels) == []
  {
  }

  // ----- Pixels -----

  /** Four bytes a pixel, or three where it is opaque. */
  function Bytes(pixels: seq<Pixel>, channels: nat): seq<Byte> {
    if pixels == [] then []
    else
      var p := pixels[0];
      (if channels == 4 then [p.r, p.g, p.b, p.a] else [p.r, p.g, p.b]) + Bytes(pixels[1..], channels)
  }

  /** The pixels of a row of whole pixels. */
  function Pixels(row: seq<Byte>, channels: nat): seq<Pixel>
    requires channels == 3 || channels == 4
    decreases |row|
  {
    if |row| < channels then []
    else [Pixel(row[0], row[1], row[2], if channels == 4 then row[3] else 255)] + Pixels(row[channels..], channels)
  }

  lemma {:induction false} PixelsInvertBytes(pixels: seq<Pixel>, channels: nat)
    requires channels == 4 || (channels == 3 && forall i | 0 <= i < |pixels| :: pixels[i].a == 255)
    ensures Pixels(Bytes(pixels, channels), channels) == pixels
    ensures |Bytes(pixels, channels)| == |pixels| * channels
    decreases |pixels|
  {
    if pixels != [] {
      PixelsInvertBytes(pixels[1..], channels);
      assert Bytes(pixels, channels)[channels..] == Bytes(pixels[1..], channels);
      assert pixels == [pixels[0]] + pixels[1..];
    }
  }

  function BytesOfRows(image: seq<seq<Pixel>>, channels: nat): seq<seq<Byte>> {
    seq(|image|, y requires 0 <= y < |image| => Bytes(image[y], channels))
  }

  function PixelsOfRows(rows: seq<seq<Byte>>, channels: nat): seq<seq<Pixel>>
    requires channels == 3 || channels == 4
  {
    seq(|rows|, y requires 0 <= y < |rows| => Pixels(rows[y], channels))
  }

  /** An image, filtered row by row in any way and read back, is itself; with three channels, if it is opaque. */
  lemma ReadingGivesTheImage(image: seq<seq<Pixel>>, width: nat, kinds: seq<Byte>, channels: nat)
    requires |kinds| == |image| && forall y | 0 <= y < |image| :: |image[y]| == width
    requires channels == 4
             || (channels == 3 && forall y, x | 0 <= y < |image| && 0 <= x < width :: image[y][x].a == 255)
    ensures var rows := BytesOfRows(image, channels);
            var stride := width * channels;
            && (forall y | 0 <= y < |rows| :: |rows[y]| == stride)
            && var raw := FilterRows(rows, kinds, Zeros(stride), channels);
            && |raw| >= |image| * (stride + 1)
            && PixelsOfRows(Rows(raw, |image|, Zeros(stride), channels), channels) == image
  {
    var rows := BytesOfRows(image, channels);
    forall y | 0 <= y < |rows| ensures |rows[y]| == width * channels && Pixels(rows[y], channels) == image[y] {
      PixelsInvertBytes(image[y], channels);
    }
    RowsInvertFilterRows(rows, kinds, Zeros(width * channels), channels);
    hide FilterRows, Rows, Bytes, Pixels;
  }
}
