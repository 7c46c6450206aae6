/**
 Gamma tables: resizing by linear interpolation and composing two tables, done in wrapping
 unsigned 32-bit arithmetic on 16-bit entries.
 */
module Lut {
  import opened Common

  const U16: nat := 0x1_0000
  const U32: nat := 0x1_0000_0000
  const MAX_LUT: nat := 0xffff

  /** An entry of the kernel's table format. */
  datatype ColorLut = ColorLut(red: nat, green: nat, blue: nat, reserved: nat)

  ghost predicate Table(t: seq<nat>) {
    |t| > 0 && forall i :: 0 <= i < |t| ==> t[i] <= MAX_LUT
  }

  ghost predicate NonDecreasing(t: seq<nat>) {
    forall i, j :: 0 <= i <= j < |t| ==> t[i] <= t[j]
  }

  // ----- Arithmetic -----

  function Low(a: int, b: int): int { if a < b then a else b }

  function High(a: int, b: int): int { if a < b then b else a }

  /** m times the value c / m of the way from a to b. */
  function Mixed(a: int, b: int, c: int, m: int): int {
    m * a + c * (b - a)
  }

  lemma MixedBounds(a: int, b: int, c: nat, m: nat)
    requires c <= m
    ensures m * Low(a, b) <= Mixed(a, b, c, m) <= m * High(a, b)
  {
    if a < b {
      MulMono(c, m, b - a);
      assert m * (b - a) == m * b - m * a;
    } else {
      MulMono(c, m, a - b);
      assert m * (a - b) == m * a - m * b;
      assert c * (b - a) == -(c * (a - b));
    }
  }

  lemma MixedMono(a: int, b: int, c: int, d: int, m: int)
    requires a <= b && c <= d
    ensures Mixed(a, b, c, m) <= Mixed(a, b, d, m)
  {
    MulMono(c, d, b - a);
  }

  /** The same in wrapping unsigned arithmetic, where the difference may be negative. */
  function WrappedMix(a: int, b: int, c: int, m: int): nat {
    ((m * a) % U32 + (c * ((b - a) % U32)) % U32) % U32
  }

  lemma Shift(x: int, k: int)
    ensures (x + k * U32) % U32 == x % U32
  {
  }

  lemma WrapProduct(c: int, d: int)
    ensures (c * (d % U32)) % U32 == (c * d) % U32
  {
    var k := d / U32;
    assert d % U32 == d - k * U32;
    assert c * (d - k * U32) == c * d + -(c * k) * U32;
    Shift(c * d, -(c * k));
  }

  lemma WrapAdd(x: int, y: int)
    ensures (x % U32 + y % U32) % U32 == (x + y) % U32
  {
    Shift(x + y, -(x / U32) - y / U32);
  }

  lemma WrappedMixExact(a: int, b: int, c: int, m: int)
    requires 0 <= Mixed(a, b, c, m) < U32
    ensures WrappedMix(a, b, c, m) == Mixed(a, b, c, m)
  {
    WrapProduct(c, b - a);
    WrapAdd(m * a, c * (b - a));
  }

  // ----- The exact interpolation -----

  /** Left neighbour of position x / m, and the one to its right if there is one. */
  function Left(x: nat, m: nat): nat
    requires m > 0
  {
    x / m
  }

  function Right(t: seq<nat>, l: nat): nat {
    if l + 1 < |t| then l + 1 else l
  }

  /** Position x / m lies in the table. */
  predicate Inside(t: seq<nat>, x: nat, m: nat) {
    m > 0 && |t| > 0 && x <= (|t| - 1) * m
  }

  lemma LeftInRange(t: seq<nat>, x: nat, m: nat)
    requires Inside(t, x, m)
    ensures Left(x, m) < |t| && Right(t, Left(x, m)) < |t| && 0 <= x - Left(x, m) * m < m
  {
    var l := Left(x, m);
    assert l * m <= x < l * m + m;
    MulMono(|t|, l, m);
  }

  /** m times the interpolated value at x / m. */
  function Weighted(t: seq<nat>, x: nat, m: nat): int
    requires Inside(t, x, m)
  {
    LeftInRange(t, x, m);
    var l := Left(x, m);
    Mixed(t[l], t[Right(t, l)], x - l * m, m)
  }

  /** The neighbours bound the weighted value. */
  lemma WeightedBetween(t: seq<nat>, x: nat, m: nat)
    requires Inside(t, x, m)
    ensures Left(x, m) < |t| && Right(t, Left(x, m)) < |t|
    ensures var a, b := t[Left(x, m)], t[Right(t, Left(x, m))]; m * Low(a, b) <= Weighted(t, x, m) <= m * High(a, b)
  {
    hide Mixed;
    LeftInRange(t, x, m);
    var l := Left(x, m);
    MixedBounds(t[l], t[Right(t, l)], x - l * m, m);
  }

  lemma WeightedRange(t: seq<nat>, x: nat, m: nat)
    requires Table(t) && Inside(t, x, m)
    ensures 0 <= Weighted(t, x, m) <= m * MAX_LUT
  {
    hide Weighted;
    WeightedBetween(t, x, m);
    var a, b := t[Left(x, m)], t[Right(t, Left(x, m))];
    MulMono(High(a, b), MAX_LUT, m);
    MulMono(0, Low(a, b), m);
  }

  /** At a multiple of m the weighted value is an entry. */
  lemma WeightedAt(t: seq<nat>, l: nat, m: nat)
    requires m > 0 && l < |t|
    ensures Inside(t, l * m, m) && Weighted(t, l * m, m) == m * t[l]
  {
    MulMono(l, |t| - 1, m);
    DivMod(l * m, l, 0, m);
    LeftInRange(t, l * m, m);
    var a, b := t[l], t[Right(t, l)];
    assert Mixed(a, b, 0, m) == m * a;
  }

  /** Interpolating a nondecreasing table gives nondecreasing values, across cells too. */
  lemma WeightedMono(t: seq<nat>, x: nat, y: nat, m: nat)
    requires NonDecreasing(t) && Inside(t, x, m) && Inside(t, y, m) && x <= y
    ensures Weighted(t, x, m) <= Weighted(t, y, m)
  {
    hide Mixed;
    LeftInRange(t, x, m);
    LeftInRange(t, y, m);
    DivMono(x, y, m);
    var l, k := Left(x, m), Left(y, m);
    if l == k {
      MixedMono(t[l], t[Right(t, l)], x - l * m, y - l * m, m);
    } else {
      WeightedApart(t, x, y, m);
    }
  }

  /** Positions in different cells. */
  lemma WeightedApart(t: seq<nat>, x: nat, y: nat, m: nat)
    requires NonDecreasing(t) && Inside(t, x, m) && Inside(t, y, m) && Left(x, m) < Left(y, m)
    ensures Weighted(t, x, m) <= Weighted(t, y, m)
  {
    hide Weighted;
    WeightedBetween(t, x, m);
    WeightedBetween(t, y, m);
    var l, k := Left(x, m), Left(y, m);
    assert t[l] <= t[l + 1] <= t[k] <= t[Right(t, k)];
    MulMono(t[l + 1], t[k], m);
  }

  // ----- What the driver computes -----

  lemma Position(t: seq<nat>, i: nat, n: nat)
    requires |t| > 0 && n > 0 && i <= n
    ensures Inside(t, i * (|t| - 1), n)
  {
    MulMono(i, n, |t| - 1);
  }

  /** At position x / n, with x computed in 32 bits, both indices are the neighbours and in
      range, and the coefficient is the true one. */
  ghost predicate IndicesOk(t: seq<nat>, x: nat, n: nat)
    requires n > 0
  {
    var l := x % U32 / n;
    && x % U32 == x && l == Left(x, n) < |t|
    && l + (if (|t| - 1 - l) % U32 != 0 then 1 else 0) == Right(t, l) < |t|
    && (x % U32 - (l * n) % U32) % U32 == x - l * n
  }

  /** This holds for every sample. */
  lemma Indices(t: seq<nat>, i: nat, n: nat)
    requires |t| > 0 && n > 0 && i <= n && n * (|t| - 1) < U32
    ensures Inside(t, i * (|t| - 1), n) && IndicesOk(t, i * (|t| - 1), n)
  {
    hide IndicesOk;
    Position(t, i, n);
    MulMono(1, n, |t| - 1);
    MulMono(i, n, |t| - 1);
    IndicesAt(t, i * (|t| - 1), n);
  }

  lemma IndicesAt(t: seq<nat>, x: nat, n: nat)
    requires Inside(t, x, n) && x < U32 && |t| <= U32
    ensures IndicesOk(t, x, n)
  {
    LeftInRange(t, x, n);
    NoWrap(x, x / n * n);
    Small(|t| - 1 - x / n);
  }

  lemma NoWrap(x: int, y: int)
    requires 0 <= y <= x < U32
    ensures x % U32 == x && (x % U32 - y % U32) % U32 == x - y
  {
  }

  lemma Small(d: int)
    requires 0 <= d < U32
    ensures d % U32 == d
  {
  }

  /** The weighted sum of sample i of n + 1 in wrapping unsigned arithmetic. */
  function Wrapped(t: seq<nat>, i: nat, n: nat): nat
    requires |t| > 0 && n > 0 && i <= n && n * (|t| - 1) < U32
  {
    Indices(t, i, n);
    var amax := |t| - 1;
    var l := (i * amax) % U32 / n;
    var r := l + (if (amax - l) % U32 != 0 then 1 else 0);
    var coeff := ((i * amax) % U32 - (l * n) % U32) % U32;
    WrappedMix(t[l], t[r], coeff, n)
  }

  lemma WrappedShape(t: seq<nat>, i: nat, n: nat)
    requires |t| > 0 && n > 0 && i <= n && n * (|t| - 1) < U32
    ensures var x := i * (|t| - 1);
            && Inside(t, x, n) && Left(x, n) < |t| && Right(t, Left(x, n)) < |t|
            && Wrapped(t, i, n) == WrappedMix(t[Left(x, n)], t[Right(t, Left(x, n))], x - Left(x, n) * n, n)
  {
    hide WrappedMix;
    Indices(t, i, n);
  }

  /** With at most 65538 outputs the wrapping sum is exactly the weighted sum. */
  lemma WrappedExact(t: seq<nat>, i: nat, n: nat)
    requires Table(t) && 0 < n <= 65537 && i <= n && n * (|t| - 1) < U32
    ensures Inside(t, i * (|t| - 1), n) && Wrapped(t, i, n) == Weighted(t, i * (|t| - 1), n)
  {
    hide Wrapped, WrappedMix, Mixed;
    WrappedShape(t, i, n);
    var x := i * (|t| - 1);
    WeightedRange(t, x, n);
    MulMono(n, 65537, MAX_LUT);
    var l := Left(x, n);
    WrappedMixExact(t[l], t[Right(t, l)], x - l * n, n);
  }

  /** Sample i of this table is computed exactly. */
  ghost predicate ExactAt(t: seq<nat>, i: nat, n: nat)
    requires |t| > 0 && n > 0 && i <= n && n * (|t| - 1) < U32
  {
    Position(t, i, n);
    Wrapped(t, i, n) == Weighted(t, i * (|t| - 1), n)
  }

  /** The sum is exact for every table if and only if there are at most 65538 outputs. */
  lemma ExactIff(n: nat)
    requires 0 < n
    ensures (forall t: seq<nat>, i: nat :: Table(t) && i <= n && n * (|t| - 1) < U32 ==> ExactAt(t, i, n)) <==>
            n <= 65537
  {
    hide Wrapped, WrappedMix, Weighted;
    if n <= 65537 {
      forall t: seq<nat>, i: nat | Table(t) && i <= n && n * (|t| - 1) < U32 ensures ExactAt(t, i, n) {
        WrappedExact(t, i, n);
      }
    } else {
      var t: seq<nat> := [MAX_LUT];
      assert Table(t) && n * (|t| - 1) == 0;
      WeightedAt(t, 0, n);
      WrappedSmall(t, 0, n);
      MulMono(65538, n, MAX_LUT);
      assert !ExactAt(t, 0, n);
    }
  }

  lemma WrappedSmall(t: seq<nat>, i: nat, n: nat)
    requires |t| > 0 && n > 0 && i <= n && n * (|t| - 1) < U32
    ensures Wrapped(t, i, n) < U32
  {
    WrappedShape(t, i, n);
  }

  // ----- Resizing -----

  /** Sample i of the table resized to n + 1 entries. */
  function Sample(t: seq<nat>, i: nat, n: nat): int
    requires |t| > 0 && n > 0 && i <= n
  {
    Position(t, i, n);
    Weighted(t, i * (|t| - 1), n) / n
  }

  /** Each output lies between the two entries next to its position. */
  lemma SampleBetween(t: seq<nat>, i: nat, n: nat)
    requires |t| > 0 && n > 0 && i <= n
    ensures var l := i * (|t| - 1) / n;
            l < |t| && Low(t[l], t[Right(t, l)]) <= Sample(t, i, n) <= High(t[l], t[Right(t, l)])
  {
    hide Weighted;
    Position(t, i, n);
    var x := i * (|t| - 1);
    WeightedBetween(t, x, n);
    Between(Low(t[Left(x, n)], t[Right(t, Left(x, n))]), High(t[Left(x, n)], t[Right(t, Left(x, n))]),
        Weighted(t, x, n), n);
  }

  lemma Between(lo: int, hi: int, w: int, n: nat)
    requires n > 0 && n * lo <= w <= n * hi
    ensures lo <= w / n <= hi
  {
    DivMono(n * lo, w, n);
    DivMono(w, n * hi, n);
    DivMod(n * lo, lo, 0, n);
    DivMod(n * hi, hi, 0, n);
  }

  /** Resizing keeps the order of entries. */
  lemma SampleMono(t: seq<nat>, i: nat, j: nat, n: nat)
    requires |t| > 0 && NonDecreasing(t) && n > 0 && i <= j <= n
    ensures Sample(t, i, n) <= Sample(t, j, n)
  {
    hide Weighted;
    var m := |t| - 1;
    Position(t, i, n);
    Position(t, j, n);
    MulMono(i, j, m);
    WeightedMono(t, i * m, j * m, n);
    DivMono(Weighted(t, i * m, n), Weighted(t, j * m, n), n);
  }

  /** Resizing keeps both end points, and leaves a table alone if the size does not change. */
  lemma SampleEnds(t: seq<nat>, n: nat, i: nat)
    requires |t| > 0 && n > 0 && i <= n
    ensures Sample(t, 0, n) == t[0] && Sample(t, n, n) == t[|t| - 1]
    ensures n == |t| - 1 ==> Sample(t, i, n) == t[i]
  {
    SampleAt(t, 0, 0, n);
    SampleAt(t, n, |t| - 1, n);
    if n == |t| - 1 {
      SampleAt(t, i, i, n);
    }
  }

  lemma SampleAt(t: seq<nat>, i: nat, l: nat, n: nat)
    requires l < |t| && n > 0 && i <= n && i * (|t| - 1) == l * n
    ensures Sample(t, i, n) == t[l]
  {
    hide Weighted;
    WeightedAt(t, l, n);
    DivMod(n * t[l], t[l], 0, n);
  }

  lemma SampleComputed(t: seq<nat>, i: nat, n: nat)
    requires Table(t) && 0 < n <= 65537 && i <= n && n * (|t| - 1) < U32
    ensures Wrapped(t, i, n) / n % U16 == Sample(t, i, n)
  {
    hide Wrapped, Sample;
    SampleRange(t, i, n);
    SampleQuotient(t, i, n);
  }

  lemma SampleRange(t: seq<nat>, i: nat, n: nat)
    requires Table(t) && n > 0 && i <= n
    ensures 0 <= Sample(t, i, n) <= MAX_LUT
  {
    hide Sample;
    SampleBetween(t, i, n);
  }

  lemma SampleQuotient(t: seq<nat>, i: nat, n: nat)
    requires Table(t) && 0 < n <= 65537 && i <= n && n * (|t| - 1) < U32
    ensures Wrapped(t, i, n) / n == Sample(t, i, n)
  {
    hide Wrapped, Weighted;
    WrappedExact(t, i, n);
  }

  /** s is the quotient by d, rounded down, of n times the value on the straight line between the two
      entries of the table next to position i * (|t| - 1) / n. */
  ghost predicate OnLine(t: seq<nat>, i: nat, n: nat, d: nat, s: int) {
    n > 0 && |t| > 0 && i * (|t| - 1) / n < |t| &&
    var x: int := i * (|t| - 1);
    var l: int := x / n;
    var a: int, b: int := t[l], t[if l + 1 < |t| then l + 1 else l];
    d * s <= n * a + (x - l * n) * (b - a) < d * (s + 1)
  }

  lemma Quotients(w: int, d: nat)
    requires d > 0
    ensures d * (w / d) <= w < d * (w / d + 1)
  {
  }

  /** The weighted value is n times the value on the line. */
  lemma WeightedOnLine(t: seq<nat>, i: nat, n: nat, d: nat)
    requires |t| > 0 && n > 0 && i <= n && d > 0
    ensures Inside(t, i * (|t| - 1), n) && OnLine(t, i, n, d, Weighted(t, i * (|t| - 1), n) / d)
  {
    Position(t, i, n);
    var x := i * (|t| - 1);
    LeftInRange(t, x, n);
    Quotients(Weighted(t, x, n), d);
  }

  /** Resizing interpolates: each output is the value on the line, rounded down. */
  lemma SampleOnLine(t: seq<nat>, i: nat, n: nat)
    requires |t| > 0 && n > 0 && i <= n
    ensures OnLine(t, i, n, n, Sample(t, i, n))
  {
    WeightedOnLine(t, i, n, n);
  }

  function WithChannel(c: ColorLut, color: nat, v: nat): ColorLut {
    if color == 0 then c.(red := v) else if color == 1 then c.(green := v) else c.(blue := v)
  }

  function Channel(c: ColorLut, color: nat): nat {
    if color == 0 then c.red else if color == 1 then c.green else c.blue
  }

  /** Entry i resized, as far as the channels before `color` are done. */
  ghost predicate Resized(c: ColorLut, red: seq<nat>, green: seq<nat>, blue: seq<nat>, i: nat, n: nat, color: nat)
    requires |red| > 0 && |green| > 0 && |blue| > 0 && n > 0 && i <= n
  {
    && (color > 0 ==> c.red == Sample(red, i, n))
    && (color > 1 ==> c.green == Sample(green, i, n))
    && (color > 2 ==> c.blue == Sample(blue, i, n))
  }

  /** One colour of drmmode_lut_interpolate. */
  method InterpolateChannel(t: seq<nat>, out: array<ColorLut>, color: nat)
    requires Table(t) && color < 3 && 2 <= out.Length <= 65538 && (out.Length - 1) * (|t| - 1) < U32
    modifies out
    ensures forall i :: 0 <= i < out.Length ==>
              && 0 <= Sample(t, i, out.Length - 1)
              && out[i] == WithChannel(old(out[i]), color, Sample(t, i, out.Length - 1))
              && OnLine(t, i, out.Length - 1, out.Length - 1, Channel(out[i], color))
  {
    hide Wrapped, Sample, OnLine;
    var n := out.Length - 1;
    for i := 0 to out.Length
      invariant forall j :: 0 <= j < i ==> OnLine(t, j, n, n, Channel(out[j], color))
      invariant forall j :: 0 <= j < i ==>
                0 <= Sample(t, j, n) && out[j] == WithChannel(old(out[j]), color, Sample(t, j, n))
      invariant forall j :: i <= j < out.Length ==> out[j] == old(out[j])
    {
      SampleComputed(t, i, n);
      SampleOnLine(t, i, n);
      out[i] := WithChannel(out[i], color, Wrapped(t, i, n) / n % U16);
    }
  }

  /** drmmode_lut_interpolate: resize the three channels into `out`. */
  method LutInterpolate(red: seq<nat>, green: seq<nat>, blue: seq<nat>, out: array<ColorLut>)
    requires Table(red) && Table(green) && Table(blue) && |red| == |green| == |blue|
    requires 2 <= out.Length <= 65538 && (out.Length - 1) * (|red| - 1) < U32
    modifies out
    ensures forall i :: 0 <= i < out.Length ==>
              && out[i].red == Sample(red, i, out.Length - 1) && out[i].green == Sample(green, i, out.Length - 1)
              && out[i].blue == Sample(blue, i, out.Length - 1) && out[i].reserved == 0
    ensures forall i :: 0 <= i < out.Length ==>
              var n := out.Length - 1;
              && OnLine(red, i, n, n, out[i].red) && OnLine(green, i, n, n, out[i].green)
              && OnLine(blue, i, n, n, out[i].blue)
  {
    hide Sample, OnLine;
    var n := out.Length - 1;
    for color := 0 to 3
      invariant forall i :: 0 <= i <= n ==> Resized(out[i], red, green, blue, i, n, color)
    {
      InterpolateChannel(if color == 0 then red else if color == 1 then green else blue, out, color);
    }
    for i := 0 to out.Length
      invariant forall j :: 0 <= j <= n ==> Resized(out[j], red, green, blue, j, n, 3)
      invariant forall j :: 0 <= j < i ==> out[j].reserved == 0
    {
      out[i] := out[i].(reserved := 0);
    }
    forall i | 0 <= i < out.Length
      ensures OnLine(red, i, n, n, out[i].red) && OnLine(green, i, n, n, out[i].green)
      ensures OnLine(blue, i, n, n, out[i].blue)
    {
      SampleOnLine(red, i, n);
      SampleOnLine(green, i, n);
      SampleOnLine(blue, i, n);
    }
  }

  // ----- Composing -----

  /** Index into the second table, of n + 1 entries, for sample i of the first. */
  function ComposeIndex(a: seq<nat>, i: nat, n: nat): int
    requires |a| > 0 && n > 0 && i <= n
  {
    Position(a, i, n);
    Weighted(a, i * (|a| - 1), n) / MAX_LUT
  }

  /** The index is the full-scale position of the value on the line, rounded down. */
  lemma ComposeOnLine(a: seq<nat>, i: nat, n: nat)
    requires |a| > 0 && n > 0 && i <= n
    ensures OnLine(a, i, n, MAX_LUT, ComposeIndex(a, i, n))
  {
    WeightedOnLine(a, i, n, MAX_LUT);
  }

  /** The index is in range for any 16-bit first table. */
  lemma ComposeInRange(a: seq<nat>, i: nat, n: nat)
    requires Table(a) && n > 0 && i <= n
    ensures 0 <= ComposeIndex(a, i, n) <= n
  {
    hide Weighted;
    Position(a, i, n);
    var x := i * (|a| - 1);
    WeightedRange(a, x, n);
    DivMono(Weighted(a, x, n), n * MAX_LUT, MAX_LUT);
    DivMod(n * MAX_LUT, n, 0, MAX_LUT);
  }

  /** Composing two nondecreasing tables gives a nondecreasing table. */
  lemma ComposeMono(a: seq<nat>, b: seq<nat>, i: nat, j: nat)
    requires Table(a) && NonDecreasing(a) && NonDecreasing(b) && |b| >= 2 && i <= j < |b|
    ensures 0 <= ComposeIndex(a, i, |b| - 1) <= ComposeIndex(a, j, |b| - 1) < |b|
    ensures b[ComposeIndex(a, i, |b| - 1)] <= b[ComposeIndex(a, j, |b| - 1)]
  {
    hide Weighted;
    var n, m := |b| - 1, |a| - 1;
    Position(a, i, n);
    Position(a, j, n);
    MulMono(i, j, m);
    WeightedMono(a, i * m, j * m, n);
    DivMono(Weighted(a, i * m, n), Weighted(a, j * m, n), MAX_LUT);
    ComposeInRange(a, i, n);
    ComposeInRange(a, j, n);
  }

  /** A first table from 0 to full scale reaches both ends of the second. */
  lemma ComposeEnds(a: seq<nat>, n: nat)
    requires Table(a) && n > 0
    ensures a[0] == 0 ==> ComposeIndex(a, 0, n) == 0
    ensures a[|a| - 1] == MAX_LUT ==> ComposeIndex(a, n, n) == n
  {
    hide Weighted;
    WeightedAt(a, 0, n);
    WeightedAt(a, |a| - 1, n);
    assert n * (|a| - 1) == (|a| - 1) * n;
    DivMod(n * MAX_LUT, n, 0, MAX_LUT);
  }

  ghost predicate Composed(c: ColorLut, red: seq<nat>, green: seq<nat>, blue: seq<nat>, b: seq<ColorLut>, i: nat,
                           color: nat)
    requires Table(red) && Table(green) && Table(blue) && |b| >= 2 && i < |b|
  {
    ComposeInRange(red, i, |b| - 1);
    ComposeInRange(green, i, |b| - 1);
    ComposeInRange(blue, i, |b| - 1);
    && (color > 0 ==> c.red == b[ComposeIndex(red, i, |b| - 1)].red)
    && (color > 1 ==> c.green == b[ComposeIndex(green, i, |b| - 1)].green)
    && (color > 2 ==> c.blue == b[ComposeIndex(blue, i, |b| - 1)].blue)
  }

  /** v is the channel of the entry of b that the value on the line points to. */
  ghost predicate Selected(a: seq<nat>, b: seq<ColorLut>, i: nat, color: nat, v: nat) {
    exists j :: 0 <= j < |b| && OnLine(a, i, |b| - 1, MAX_LUT, j) && v == Channel(b[j], color)
  }

  lemma ComposedSelected(c: ColorLut, red: seq<nat>, green: seq<nat>, blue: seq<nat>, b: seq<ColorLut>, i: nat)
    requires Table(red) && Table(green) && Table(blue) && |b| >= 2 && i < |b| && Composed(c, red, green, blue, b, i, 3)
    ensures Selected(red, b, i, 0, c.red) && Selected(green, b, i, 1, c.green) && Selected(blue, b, i, 2, c.blue)
  {
    hide OnLine, ComposeIndex;
    var n := |b| - 1;
    ComposeInRange(red, i, n);
    ComposeInRange(green, i, n);
    ComposeInRange(blue, i, n);
    ComposeOnLine(red, i, n);
    ComposeOnLine(green, i, n);
    ComposeOnLine(blue, i, n);
  }

  /** One colour of drmmode_lut_compose: each output is an entry of `b`. */
  method ComposeChannel(t: seq<nat>, b: seq<ColorLut>, out: array<ColorLut>, color: nat)
    requires Table(t) && color < 3 && 2 <= |b| == out.Length <= 65538 && (|b| - 1) * (|t| - 1) < U32
    modifies out
    ensures forall i :: 0 <= i < out.Length ==>
              && 0 <= ComposeIndex(t, i, |b| - 1) < |b| && OnLine(t, i, |b| - 1, MAX_LUT, ComposeIndex(t, i, |b| - 1))
              && out[i] == WithChannel(old(out[i]), color, Channel(b[ComposeIndex(t, i, |b| - 1)], color))
  {
    hide Wrapped, Weighted, OnLine;
    var n := |b| - 1;
    for i := 0 to out.Length
      invariant forall j :: 0 <= j < i ==>
                  && 0 <= ComposeIndex(t, j, n) < |b| && OnLine(t, j, n, MAX_LUT, ComposeIndex(t, j, n))
                  && out[j] == WithChannel(old(out[j]), color, Channel(b[ComposeIndex(t, j, n)], color))
      invariant forall j :: i <= j < out.Length ==> out[j] == old(out[j])
    {
      WrappedExact(t, i, n);
      ComposeInRange(t, i, n);
      ComposeOnLine(t, i, n);
      var j := Wrapped(t, i, n) / MAX_LUT;
      out[i] := WithChannel(out[i], color, Channel(b[j], color));
    }
  }

  /** drmmode_lut_compose: out[i] is the entry of `b` that the resized first table points to. */
  method LutCompose(red: seq<nat>, green: seq<nat>, blue: seq<nat>, b: seq<ColorLut>, out: array<ColorLut>)
    requires Table(red) && Table(green) && Table(blue) && |red| == |green| == |blue|
    requires 2 <= |b| == out.Length <= 65538 && (|b| - 1) * (|red| - 1) < U32
    modifies out
    ensures forall i :: 0 <= i < out.Length ==> Composed(out[i], red, green, blue, b, i, 3) && out[i].reserved == 0
    ensures forall i :: 0 <= i < out.Length ==>
              && Selected(red, b, i, 0, out[i].red) && Selected(green, b, i, 1, out[i].green)
              && Selected(blue, b, i, 2, out[i].blue)
  {
    hide ComposeIndex, OnLine, Selected;
    for color := 0 to 3
      invariant forall i :: 0 <= i < out.Length ==> Composed(out[i], red, green, blue, b, i, color)
    {
      ComposeChannel(if color == 0 then red else if color == 1 then green else blue, b, out, color);
    }
    for i := 0 to out.Length
      invariant forall j :: 0 <= j < out.Length ==> Composed(out[j], red, green, blue, b, j, 3)
      invariant forall j :: 0 <= j < i ==> out[j].reserved == 0
    {
      out[i] := out[i].(reserved := 0);
    }
    forall i | 0 <= i < out.Length
      ensures Selected(red, b, i, 0, out[i].red) && Selected(green, b, i, 1, out[i].green)
      ensures Selected(blue, b, i, 2, out[i].blue)
    {
      ComposedSelected(out[i], red, green, blue, b, i);
    }
  }
}
