/** The exponential fade of client_essential/audio_engine/Fade.hpp over two shared segments, with exact reals in place of
    doubles: the gain at sample n is r^n, where r is the base with r^320 = 1/100. */
module Fade {

  const BLOCK_SIZE: int := 160
  const NB_SEGMENT: int := 2
  const MIN_FACTOR: real := 0.01

  type Sample = x: int | -0x8000 <= x < 0x8000

  function Zeros(): (f: seq<Sample>)
    ensures |f| == BLOCK_SIZE && forall i :: 0 <= i < BLOCK_SIZE ==> f[i] == 0
  {
    seq(BLOCK_SIZE, _ => 0)
  }

  type Frame = f: seq<Sample> | |f| == BLOCK_SIZE witness Zeros()

  // ---------- Powers ----------

  function Pow(r: real, n: nat): real {
    if n == 0 then 1.0 else r * Pow(r, n - 1)
  }

  lemma {:induction false} PowPositive(r: real, n: nat)
    requires r > 0.0
    ensures Pow(r, n) > 0.0
  {
    if n > 0 {
      PowPositive(r, n - 1);
    }
  }

  lemma {:induction false} PowAdd(r: real, m: nat, n: nat)
    ensures Pow(r, m + n) == Pow(r, m) * Pow(r, n)
  {
    if m > 0 {
      PowAdd(r, m - 1, n);
      assert r * (Pow(r, m - 1) * Pow(r, n)) == (r * Pow(r, m - 1)) * Pow(r, n);
    }
  }

  lemma {:induction false} PowAtLeastOne(r: real, n: nat)
    requires r >= 1.0
    ensures Pow(r, n) >= 1.0
  {
    if n > 0 {
      PowAtLeastOne(r, n - 1);
      Product(r, Pow(r, n - 1));
    }
  }

  lemma Product(a: real, b: real)
    requires a >= 1.0 && b >= 1.0
    ensures a * b >= b
  {
    assert a * b - b == (a - 1.0) * b;
  }

  /** The base of the gains: the gain of the last step of the whole fade would be exactly MIN_FACTOR. */
  ghost predicate IsBase(r: real) {
    r > 0.0 && Pow(r, BLOCK_SIZE * NB_SEGMENT) == MIN_FACTOR
  }

  /** So the theorems below hold of every positive real whose n-th power is a hundredth, n being the length of the fade. */
  lemma BaseIsRoot(r: real, n: nat)
    requires n == 320
    ensures IsBase(r) <==> r > 0.0 && Pow(r, n) == 0.01
  {
  }

  lemma BaseBelowOne(r: real)
    requires IsBase(r)
    ensures r < 1.0
  {
    if r >= 1.0 {
      PowAtLeastOne(r, BLOCK_SIZE * NB_SEGMENT);
    }
  }

  lemma {:induction false} PowDrops(r: real, n: nat)
    requires 0.0 < r < 1.0
    ensures 0.0 < Pow(r, n + 1) < Pow(r, n)
  {
    PowPositive(r, n);
    Shrink(r, Pow(r, n), Pow(r, n + 1));
  }

  lemma Shrink(r: real, p: real, q: real)
    requires 0.0 < r < 1.0 && 0.0 < p && q == r * p
    ensures 0.0 < q < p
  {
    Positive(r, p, q);
    Positive(1.0 - r, p, p - q);
  }

  lemma Positive(a: real, b: real, product: real)
    requires 0.0 < a && 0.0 < b && product == a * b
    ensures 0.0 < product
  {
  }

  /** v and w are z scaled by the gains g <= h. */
  lemma MoreGain(z: real, g: real, h: real, v: real, w: real)
    requires 0.0 <= z && g <= h && v == z * g && w == z * h
    ensures v <= w
  {
    if 0.0 < z && g < h {
      Positive(z, h - g, w - v);
    }
  }

  lemma RootOfHundredth(p: real)
    requires 0.0 < p && p * p == 0.01
    ensures p == 0.1
  {
    assert (p - 0.1) * (p + 0.1) == 0.0;
  }

  lemma {:induction false} PowDecreases(r: real, m: nat, n: nat)
    requires 0.0 < r < 1.0 && m < n
    ensures 0.0 < Pow(r, n) < Pow(r, m)
    decreases n - m
  {
    PowDrops(r, m);
    if m + 1 < n {
      PowDecreases(r, m + 1, n);
    }
  }

  lemma GainInRange(r: real, n: nat)
    requires IsBase(r)
    ensures 0.0 < Pow(r, n) <= 1.0
  {
    BaseBelowOne(r);
    PowPositive(r, n);
    if n > 0 {
      PowDecreases(r, 0, n);
    }
  }

  /** The fade reaches a tenth exactly at the seam between its two segments, so every sample of the first one keeps more
      than a tenth of its amplitude. */
  lemma SeamGain(r: real, i: nat)
    requires IsBase(r) && i < BLOCK_SIZE
    ensures Pow(r, BLOCK_SIZE) == 0.1
    ensures 0.1 < Pow(r, i) <= 1.0
  {
    PowAdd(r, BLOCK_SIZE, BLOCK_SIZE);
    PowPositive(r, BLOCK_SIZE);
    RootOfHundredth(Pow(r, BLOCK_SIZE));
    BaseBelowOne(r);
    PowDecreases(r, i, BLOCK_SIZE);
    GainInRange(r, i);
  }

  // ---------- Samples ----------

  /** The conversion from double back to a 16-bit sample: towards zero. */
  function Trunc(x: real): int {
    if x >= 0.0 then x.Floor else -((-x).Floor)
  }

  lemma TruncBounds(x: int, w: real)
    requires if x >= 0 then 0.0 <= w <= x as real else x as real <= w <= 0.0
    ensures if x >= 0 then 0 <= Trunc(w) <= x else x <= Trunc(w) <= 0
    ensures if w >= 0.0 then w - 1.0 < Trunc(w) as real <= w else w <= Trunc(w) as real < w + 1.0
  {
  }

  /** w is x scaled by the gain g. */
  lemma ProductBounds(x: real, g: real, w: real)
    requires 0.0 < g <= 1.0 && w == x * g
    ensures if x >= 0.0 then 0.0 <= w <= x else x <= w <= 0.0
    ensures 0.1 < g ==> if x >= 0.0 then w >= 0.1 * x else w <= 0.1 * x
  {
    var z, v := if x >= 0.0 then x else -x, if x >= 0.0 then w else -w;
    assert v == z * g;
    MoreGain(z, 0.0, g, 0.0, v);
    MoreGain(z, g, 1.0, v, z);
    if 0.1 < g {
      MoreGain(z, 0.1, g, 0.1 * z, v);
    }
  }

  /** A scaled sample never grows, never changes sign and stays a 16-bit sample. */
  function Scale(x: Sample, g: real): (y: Sample)
    requires 0.0 < g <= 1.0
    ensures if x >= 0 then 0 <= y <= x else x <= y <= 0
  {
    var w := x as real * g;
    ProductBounds(x as real, g, w);
    TruncBounds(x, w);
    Trunc(w)
  }

  /** A gain above a tenth keeps a tenth of the sample, up to the truncation. */
  lemma ScaleKeepsATenth(x: Sample, g: real)
    requires 0.1 < g <= 1.0
    ensures if x >= 0 then Scale(x, g) as real > 0.1 * x as real - 1.0 else Scale(x, g) as real < 0.1 * x as real + 1.0
  {
    var w := x as real * g;
    ProductBounds(x as real, g, w);
    TruncBounds(x, w);
    assert Scale(x, g) == Trunc(w);
  }

  function FadedSample(x: Sample, r: real, n: nat): Sample
    requires IsBase(r)
  {
    GainInRange(r, n);
    Scale(x, Pow(r, n))
  }

  /** A frame faded as the segment that starts at sample offset of the fade. */
  function Faded(f: Frame, r: real, offset: nat): Frame
    requires IsBase(r)
  {
    seq(BLOCK_SIZE, i requires 0 <= i < BLOCK_SIZE && IsBase(r) => FadedSample(f[i], r, offset + i))
  }

  /** Fading never makes a sample louder and never flips it, and the first segment of a fade keeps more than a tenth of
      every sample, up to the truncation. */
  lemma FadedIsQuieter(f: Frame, r: real, offset: nat, i: nat)
    requires IsBase(r) && i < BLOCK_SIZE
    ensures var y := Faded(f, r, offset)[i];
      && (if f[i] >= 0 then 0 <= y <= f[i] else f[i] <= y <= 0)
      && (offset == 0 ==> if f[i] >= 0 then y as real > 0.1 * f[i] as real - 1.0 else y as real < 0.1 * f[i] as real + 1.0)
  {
    GainInRange(r, offset + i);
    assert Faded(f, r, offset)[i] == Scale(f[i], Pow(r, offset + i));
    if offset == 0 {
      SeamGain(r, i);
      ScaleKeepsATenth(f[i], Pow(r, i));
    }
  }

  /** What a fade does to each sample, in both segments: it multiplies it by r^n and drops the fraction, towards zero. */
  lemma FadedIsProduct(f: Frame, r: real, offset: nat, i: nat)
    requires IsBase(r) && i < 160
    ensures var y, product := Faded(f, r, offset)[i] as real, f[i] as real * Pow(r, offset + i);
      if f[i] >= 0 then y <= product < y + 1.0 else y - 1.0 < product <= y
  {
    hide Pow;
    GainInRange(r, offset + i);
    ScaleIsProduct(f[i], Pow(r, offset + i), f[i] as real * Pow(r, offset + i));
    assert Faded(f, r, offset)[i] == Scale(f[i], Pow(r, offset + i));
  }

  lemma ScaleIsProduct(x: Sample, g: real, w: real)
    requires 0.0 < g <= 1.0 && w == x as real * g
    ensures var y := Scale(x, g) as real;
      if x >= 0 then y <= w < y + 1.0 else y - 1.0 < w <= y
  {
    ProductBounds(x as real, g, w);
    TruncBounds(x, w);
    assert Scale(x, g) == Trunc(w);
  }

  /** In the second segment no sample keeps more than a tenth. */
  lemma SecondSegmentIsFaint(f: Frame, r: real, i: nat)
    requires IsBase(r) && i < 160
    ensures var y: int, x: int := Faded(f, r, 160)[i], f[i];
      if x >= 0 then 0 <= 10 * y <= x else x <= 10 * y <= 0
  {
    hide Pow, IsBase;
    SecondGain(r, i);
    FadedIsProduct(f, r, 160, i);
    FadedIsQuieter(f, r, 160, i);
    TenthOfSample(f[i], Faded(f, r, 160)[i], Pow(r, 160 + i), f[i] as real * Pow(r, 160 + i));
  }

  lemma TenthOfSample(x: int, y: int, g: real, w: real)
    requires 0.0 < g <= 0.1 && w == x as real * g
    requires if x >= 0 then 0 <= y && y as real <= w else y <= 0 && w <= y as real
    ensures if x >= 0 then 0 <= 10 * y <= x else x <= 10 * y <= 0
  {
    AtMostATenth(x as real, g, w);
    assert (10 * y) as real == 10.0 * y as real;
  }

  lemma SecondGain(r: real, i: nat)
    requires IsBase(r)
    ensures 0.0 < Pow(r, 160 + i) <= 0.1
  {
    SeamGain(r, 0);
    BaseBelowOne(r);
    PowPositive(r, 160 + i);
    if i > 0 {
      PowDecreases(r, 160, 160 + i);
    }
  }

  lemma AtMostATenth(x: real, g: real, w: real)
    requires 0.0 < g <= 0.1 && w == x * g
    ensures if x >= 0.0 then w <= 0.1 * x else 0.1 * x <= w
  {
    var z, v := if x >= 0.0 then x else -x, if x >= 0.0 then w else -w;
    assert v == z * g;
    MoreGain(z, g, 0.1, v, 0.1 * z);
  }

  // ---------- The loop ----------

  datatype Direction = FadeIn | FadeOut

  /** The largest double, 2^1024 - 2^971, and the distance from 1 to the next double. */
  const DOUBLE_MAX: real := Pow(2.0, 1024) - Pow(2.0, 971)
  const DOUBLE_EPSILON: real := 1.0 / 4503599627370496.0

  lemma DoubleMaxAboveOne()
    ensures DOUBLE_MAX > 1.0
  {
    PowAdd(2.0, 971, 53);
    PowAdd(2.0, 51, 2);
    PowAtLeastOne(2.0, 971);
    PowAtLeastOne(2.0, 51);
    assert Pow(2.0, 2) == 4.0;
    var a, b := Pow(2.0, 971), Pow(2.0, 53);
    assert a * b - a == a * (b - 1.0);
    Product(a, b - 1.0);
  }

  /** The inner loop: one segment, whose first sample is sample first of the fade. It may throw only when fading in. */
  method FadeSegment(inOrOut: Direction, current: array<Sample>, first: nat, total: nat, lastFactor: real, r: real)
      returns (threw: bool, newFactor: real)
    requires IsBase(r) && current.Length == BLOCK_SIZE && first + BLOCK_SIZE <= total
    requires if first == 0 then lastFactor == DOUBLE_MAX else lastFactor == Pow(r, first - 1)
    requires inOrOut == FadeIn ==> first == 0
    modifies current
    ensures threw <==> inOrOut == FadeIn
    ensures threw ==> current[..] == old(current[..])
    ensures !threw ==> current[..] == Faded(old(current[..]), r, first) && newFactor == Pow(r, first + BLOCK_SIZE - 1)
  {
    ghost var before := current[..];
    DoubleMaxAboveOne();
    BaseBelowOne(r);
    newFactor := lastFactor;
    var pos := 0;
    while pos < BLOCK_SIZE
      invariant 0 <= pos <= BLOCK_SIZE && (inOrOut == FadeIn ==> pos == 0)
      invariant if first + pos == 0 then newFactor == DOUBLE_MAX else newFactor == Pow(r, first + pos - 1)
      invariant forall i :: 0 <= i < pos ==> current[i] == FadedSample(before[i], r, first + i)
      invariant forall i :: pos <= i < BLOCK_SIZE ==> current[i] == before[i]
    {
      var indexSample := first + pos;
      if inOrOut == FadeIn {
        indexSample := total - indexSample;
      }
      var finalFactor := Pow(r, indexSample);
      GainInRange(r, indexSample);
      if indexSample > 0 {
        PowDrops(r, indexSample - 1);
      }
      if finalFactor > 1.0 + DOUBLE_EPSILON {
        return true, newFactor;
      }
      if inOrOut == FadeIn && finalFactor < newFactor {
        return true, newFactor;
      }
      if inOrOut == FadeOut && finalFactor > newFactor {
        return true, newFactor;
      }
      current[pos] := Scale(current[pos], finalFactor);
      newFactor := finalFactor;
      pos := pos + 1;
    }
    return false, newFactor;
  }

  /** Fades two distinct segments in place. Fading out never reaches a throw and scales every sample exactly once; fading
      in throws before it has touched a sample, because the gain it starts with is below the largest double. */
  method FadeExponential(inOrOut: Direction, segments: seq<array<Sample>>, r: real) returns (threw: bool)
    requires IsBase(r)
    requires |segments| == NB_SEGMENT && segments[0] != segments[1]
    requires segments[0].Length == BLOCK_SIZE && segments[1].Length == BLOCK_SIZE
    modifies segments[0], segments[1]
    ensures threw <==> inOrOut == FadeIn
    ensures threw ==> segments[0][..] == old(segments[0][..]) && segments[1][..] == old(segments[1][..])
    ensures !threw ==> segments[0][..] == Faded(old(segments[0][..]), r, 0)
    ensures !threw ==> segments[1][..] == Faded(old(segments[1][..]), r, BLOCK_SIZE)
  {
    var lastFactor := DOUBLE_MAX;
    var indexSegment := 0;
    while indexSegment < |segments|
      invariant 0 <= indexSegment <= 2
      invariant inOrOut == FadeIn ==> indexSegment == 0
      invariant if indexSegment == 0 then lastFactor == DOUBLE_MAX else lastFactor == Pow(r, indexSegment * BLOCK_SIZE - 1)
      invariant segments[0][..] == if indexSegment == 0 then old(segments[0][..]) else Faded(old(segments[0][..]), r, 0)
      invariant segments[1][..]
             == if indexSegment < 2 then old(segments[1][..]) else Faded(old(segments[1][..]), r, BLOCK_SIZE)
    {
      var current := segments[|segments| - NB_SEGMENT + indexSegment];
      threw, lastFactor :=
        FadeSegment(inOrOut, current, indexSegment * BLOCK_SIZE, |segments| * BLOCK_SIZE, lastFactor, r);
      if threw {
        return;
      }
      indexSegment := indexSegment + 1;
    }
    threw := false;
  }

  // ---------- Packet loss concealment ----------

  /** Fades out the older segments and clears the first half of the output: memset counts bytes, size() counts samples of
      two bytes each. */
  method Predict(older: seq<array<Sample>>, output: array<Sample>, r: real)
    requires IsBase(r)
    requires |older| == NB_SEGMENT && older[0] != older[1]
    requires older[0].Length == BLOCK_SIZE && older[1].Length == BLOCK_SIZE
    requires output.Length == BLOCK_SIZE && output !in older
    modifies older[0], older[1], output
    ensures older[0][..] == Faded(old(older[0][..]), r, 0)
    ensures older[1][..] == Faded(old(older[1][..]), r, BLOCK_SIZE)
    ensures output[..] == Zeros()[..BLOCK_SIZE / 2] + old(output[BLOCK_SIZE / 2..])
  {
    var threw := FadeExponential(FadeOut, older, r);
    forall i | 0 <= i < BLOCK_SIZE / 2 {
      output[i] := 0;
    }
  }
}
