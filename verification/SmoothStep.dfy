/**
  The quintic easing of the debugger's animations, over the reals.
 */
module SmoothStep {
  import Animator

  function Factor(x: real): real {
    x * x * x * (x * (x * 6.0 - 15.0) + 10.0)
  }

  /** The function `SmoothStepInterpolator` is made with; without frames it is never called. */
  function Frame(from: real, end: real, frame: int, totalFrames: int): real {
    if totalFrames == 0 then from else from + Scaled(end - from, Factor(Ratio(frame, totalFrames)))
  }

  function Scaled(width: real, factor: real): real {
    width * factor
  }

  /** How far along a frame is. */
  function Ratio(frame: int, totalFrames: int): real
    requires totalFrames != 0
  {
    1.0 * frame as real / totalFrames as real
  }

  /** A new `SmoothStepInterpolator` */
  method SmoothStepInterpolator(totalFrames: int, from: real, end: real) returns (r: Animator.RangeInterpolator)
    ensures fresh(r) && r.frame == 0 && r.totalFrames == totalFrames && r.from == from && r.end == end
    ensures r.func == Frame
  {
    r := new Animator.RangeInterpolator(totalFrames, from, end, Frame);
  }

  // ---------------------------------------------------------------------------------------------
  // The factor

  /** The mean of the squared polynomial x * (1 - x) between x and x + d, as a sum of squares. */
  function MeanSquare(x: real, d: real): real {
    var a, b, c := x * (1.0 - x), d * (1.0 - 2.0 * x), -d * d;
    var mean := a + b / 2.0 + c / 3.0;
    mean * mean + (b + c) * (b + c) / 12.0 + c * c / 180.0
  }

  lemma Square(x: real)
    ensures x * x >= 0.0
  {
  }

  lemma MeanSquareIsPositive(x: real, d: real)
    ensures MeanSquare(x, d) >= 0.0
  {
    var a, b, c := x * (1.0 - x), d * (1.0 - 2.0 * x), -d * d;
    Square(a + b / 2.0 + c / 3.0);
    Square(b + c);
    Square(c);
  }

  /** The derivative of the factor is 30 times that square. */
  lemma FactorRises(x: real, d: real)
    ensures Factor(x + d) == Factor(x) + 30.0 * d * MeanSquare(x, d)
  {
  }

  lemma FactorIsMonotone(x: real, y: real)
    requires x <= y
    ensures Factor(x) <= Factor(y)
  {
    hide MeanSquare, Factor;
    FactorRises(x, y - x);
    MeanSquareIsPositive(x, y - x);
    assert x + (y - x) == y;
    Product(30.0 * (y - x), MeanSquare(x, y - x));
  }

  lemma Product(x: real, y: real)
    requires x >= 0.0 && y >= 0.0
    ensures x * y >= 0.0
  {
  }

  lemma FactorStaysInside(x: real)
    requires 0.0 <= x <= 1.0
    ensures 0.0 <= Factor(x) <= 1.0
  {
    FactorIsMonotone(0.0, x);
    FactorIsMonotone(x, 1.0);
    FactorEnds();
  }

  lemma FactorEnds()
    ensures Factor(0.0) == 0.0 && Factor(1.0) == 1.0
  {
  }

  /** The second half of the way mirrors the first. */
  lemma FactorIsSymmetric(x: real)
    ensures Factor(1.0 - x) == 1.0 - Factor(x)
  {
  }

  // ---------------------------------------------------------------------------------------------
  // The frames

  lemma RatioIsMonotone(i: int, j: int, totalFrames: int)
    requires 0 <= i <= j <= totalFrames && totalFrames > 0
    ensures 0.0 <= Ratio(i, totalFrames) <= Ratio(j, totalFrames) <= 1.0
    ensures Ratio(0, totalFrames) == 0.0 && Ratio(totalFrames, totalFrames) == 1.0
  {
  }

  lemma Cancel(x: real, y: real, t: real)
    requires x * t == y * t && t > 0.0
    ensures x == y
  {
    assert (x - y) * t == 0.0;
  }

  lemma RatioMirrors(i: int, totalFrames: int)
    requires totalFrames > 0
    ensures Ratio(totalFrames - i, totalFrames) == 1.0 - Ratio(i, totalFrames)
  {
    var x, y, t := Ratio(i, totalFrames), Ratio(totalFrames - i, totalFrames), totalFrames as real;
    assert x * t == i as real && y * t == t - i as real;
    Cancel(y, 1.0 - x, t);
  }

  /** Going up, no frame is below an earlier one, and all stay between the ends; the last one arrives. */
  lemma FramesRise(from: real, end: real, i: int, j: int, totalFrames: int)
    requires from <= end && 0 <= i <= j <= totalFrames && totalFrames > 0
    ensures from <= Frame(from, end, i, totalFrames) <= Frame(from, end, j, totalFrames) <= end
    ensures Frame(from, end, 0, totalFrames) == from && Frame(from, end, totalFrames, totalFrames) == end
  {
    hide Factor, Ratio, Scaled;
    RatioIsMonotone(i, j, totalFrames);
    var x, y := Ratio(i, totalFrames), Ratio(j, totalFrames);
    FactorIsMonotone(x, y);
    FactorStaysInside(x);
    FactorStaysInside(y);
    Between(end - from, Factor(x), Factor(y));
    FactorEnds();
  }

  lemma Between(width: real, a: real, b: real)
    requires width >= 0.0 && 0.0 <= a <= b <= 1.0
    ensures 0.0 <= Scaled(width, a) <= Scaled(width, b) <= width
    ensures Scaled(width, 0.0) == 0.0 && Scaled(width, 1.0) == width
  {
    Product(width, a);
    Product(width, b - a);
    Product(width, 1.0 - b);
  }

  lemma Distribute(width: real, a: real)
    ensures Scaled(width, 1.0 - a) == width - Scaled(width, a)
  {
  }

  /** Frames equally far from the two ends lie equally far from the two values. */
  lemma FramesMirror(from: real, end: real, i: int, totalFrames: int)
    requires totalFrames > 0
    ensures Frame(from, end, i, totalFrames) + Frame(from, end, totalFrames - i, totalFrames) == from + end
  {
    hide Factor, Ratio, Scaled;
    var x := Ratio(i, totalFrames);
    RatioMirrors(i, totalFrames);
    FactorIsSymmetric(x);
    Distribute(end - from, Factor(x));
  }
}
