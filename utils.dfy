/** analysis/utils.py: the exponential moving average used as a low-pass filter. */
module Utils {

  function Min(a: real, b: real): real { if a <= b then a else b }

  function Max(a: real, b: real): real { if a <= b then b else a }

  /** `alpha*prev_mean + (1-alpha)*value`: alpha weighs the running mean,
      1 - alpha the new sample. */
  function ExpMovingAverage(prevMean: real, value: real, alpha: real): (r: real)
    ensures alpha == 1.0 ==> r == prevMean
    ensures alpha == 0.0 ==> r == value
    ensures prevMean == value ==> r == value
    ensures 0.0 <= alpha <= 1.0 ==> Min(prevMean, value) <= r <= Max(prevMean, value)
  {
    EmaBetween(prevMean, value, alpha);
    alpha * prevMean + (1.0 - alpha) * value
  }

  lemma EmaBetween(prevMean: real, value: real, alpha: real)
    ensures 0.0 <= alpha <= 1.0 ==>
      Min(prevMean, value) <= alpha * prevMean + (1.0 - alpha) * value <= Max(prevMean, value)
  {
    if 0.0 <= alpha <= 1.0 {
      // r - value == alpha * (prevMean - value) and prevMean - r == (1 - alpha) * (prevMean - value)
      if prevMean <= value {
        MulNonneg(alpha, value - prevMean);
        MulNonneg(1.0 - alpha, value - prevMean);
      } else {
        MulNonneg(alpha, prevMean - value);
        MulNonneg(1.0 - alpha, prevMean - value);
      }
    }
  }

  lemma MulNonneg(a: real, b: real)
    requires 0.0 <= a && 0.0 <= b
    ensures 0.0 <= a * b
  {
  }
}
