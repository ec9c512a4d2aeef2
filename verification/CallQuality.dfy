/**
 * The call-quality score of apps/agent-worker/voiceos_voice/accounting.py over exact reals: the
 * R-factor of a network sample and its mapping to a mean opinion score (ITU-T G.107, Annex B).
 */
module CallQuality {
  import opened Rounding

  function Min(a: real, b: real): real { if a <= b then a else b }
  function Max(a: real, b: real): real { if a >= b then a else b }

  function EffectiveLatency(jitter: real, rtt: real): real {
    rtt / 2.0 + jitter * 2.0 + 10.0
  }

  function LatencyPenalty(latency: real): real {
    0.024 * latency + if latency > 177.3 then 0.11 * (latency - 177.3) else 0.0
  }

  function RFactor(loss: real, jitter: real, rtt: real): real {
    Max(0.0, Min(100.0, 93.2 - LatencyPenalty(EffectiveLatency(jitter, rtt)) - loss * 2.5))
  }

  function RawScore(r: real): real {
    1.0 + 0.035 * r + r * (r - 60.0) * (100.0 - r) * 0.000007
  }

  function Score(r: real): real {
    Max(1.0, Min(4.5, RawScore(r)))
  }

  function EstimateMos(loss: real, jitter: real, rtt: real): real {
    Round2(Score(RFactor(loss, jitter, rtt)))
  }

  // ------------------------------------------------------------------------ the cubic

  /** The score above 1, scaled: `r` times a parabola. */
  function Cubic(r: real): real {
    r * (160.0 * r - r * r - 1000.0)
  }

  lemma RawScoreIsCubic(r: real)
    ensures RawScore(r) == 1.0 + 0.000007 * Cubic(r)
  {
    assert (r - 60.0) * (100.0 - r) == 160.0 * r - r * r - 6000.0;
    assert r * (r - 60.0) * (100.0 - r) == r * ((r - 60.0) * (100.0 - r));
  }

  lemma CubicDifference(a: real, b: real)
    ensures Cubic(b) - Cubic(a) == (b - a) * (160.0 * (a + b) - (a + b) * (a + b) + a * b - 1000.0)
  {
    var s, d := a + b, b - a;
    assert d * s == b * b - a * a;
    assert d * (s * s) == (b * b - a * a) * s;
  }

  lemma Product(x: real, y: real)
    requires x >= 0.0 && y >= 0.0
    ensures x * y >= 0.0
  {
  }

  /** Where the cubic is positive it lies to the right of its minimum, and from there it rises. */
  lemma RisesFromPositive(a: real, b: real)
    requires 0.0 <= a <= b <= 100.0 && Cubic(a) > 0.0
    ensures Cubic(a) <= Cubic(b)
  {
    var s := a + b;
    var slope := 160.0 * s - s * s + a * b - 1000.0;
    if 160.0 * a - a * a - 1000.0 <= 0.0 {
      Product(a, 1000.0 + a * a - 160.0 * a);
      assert false;
    }
    if s <= 160.0 {
      Product(b, 160.0 - s);
      assert slope == (160.0 * a - a * a - 1000.0) + b * (160.0 - s);
    } else {
      Product(100.0 - a, 100.0 - b);
      Product(200.0 - s, s - 60.0);
      assert slope == (100.0 - a) * (100.0 - b) + (200.0 - s) * (s - 60.0) + 1000.0;
    }
    Product(b - a, slope);
    CubicDifference(a, b);
  }

  /** The mapping from R to the score never decreases: the clamp at 1 hides exactly the stretch
      near 0 on which the cubic falls. */
  lemma ScoreMonotone(a: real, b: real)
    requires 0.0 <= a <= b <= 100.0
    ensures Score(a) <= Score(b)
  {
    RawScoreIsCubic(a);
    RawScoreIsCubic(b);
    if Cubic(a) > 0.0 { RisesFromPositive(a, b); }
  }

  /** Without the lower clamp it would decrease. */
  lemma RawScoreFalls()
    ensures RawScore(0.0) > RawScore(3.0)
  {
  }

  /** More loss, jitter or delay never improves the score. */
  lemma MosMonotone(loss: real, jitter: real, rtt: real, loss': real, jitter': real, rtt': real)
    requires 0.0 <= loss <= loss' && 0.0 <= jitter <= jitter' && 0.0 <= rtt <= rtt'
    ensures EstimateMos(loss', jitter', rtt') <= EstimateMos(loss, jitter, rtt)
  {
    var r, r' := RFactor(loss, jitter, rtt), RFactor(loss', jitter', rtt');
    assert r' <= r;
    ScoreMonotone(r', r);
    Round2Monotone(Score(r'), Score(r));
  }

  /** The best score is that of a perfect network, 4.4: the clamp at 4.5 is never reached. */
  lemma MosRange(loss: real, jitter: real, rtt: real)
    requires loss >= 0.0 && jitter >= 0.0 && rtt >= 0.0
    ensures 1.0 <= EstimateMos(loss, jitter, rtt) <= 4.4
    ensures EstimateMos(0.0, 0.0, 0.0) == 4.4
    ensures RawScore(RFactor(loss, jitter, rtt)) < 4.5
  {
    MosMonotone(0.0, 0.0, 0.0, loss, jitter, rtt);
    var r, best := RFactor(loss, jitter, rtt), RFactor(0.0, 0.0, 0.0);
    assert best == 92.96;
    ScoreMonotone(r, best);
    Round2Monotone(1.0, Score(r));
  }

  // ------------------------------------------------------------------------------- the factors

  /** What brings the R-factor down while it is not clamped: 2.5 for every percent of loss; for
      every millisecond of round-trip time a fourth of what one of jitter costs; up to 177.3 ms of
      effective latency 0.024 a millisecond, and 0.134 beyond. */
  lemma RFactorFalls(loss: real, jitter: real, rtt: real, more: real)
    requires more >= 0.0 && 0.0 < RFactor(loss, jitter, rtt) < 100.0
    ensures 0.0 < RFactor(loss + more, jitter, rtt) ==>
              RFactor(loss + more, jitter, rtt) == RFactor(loss, jitter, rtt) - 2.5 * more
    ensures RFactor(loss, jitter + more, rtt) == RFactor(loss, jitter, rtt + 4.0 * more)
    ensures 0.5 * (rtt + more) + 2.0 * jitter + 10.0 <= 177.3 && 0.0 < RFactor(loss, jitter, rtt + more) ==>
              RFactor(loss, jitter, rtt + more) == RFactor(loss, jitter, rtt) - 0.012 * more
    ensures 0.5 * rtt + 2.0 * jitter + 10.0 > 177.3 && 0.0 < RFactor(loss, jitter, rtt + more) ==>
              RFactor(loss, jitter, rtt + more) == RFactor(loss, jitter, rtt) - 0.067 * more
  {
  }

  /** A perfect network and four points of the cubic mapping. */
  lemma Anchors()
    ensures RFactor(0.0, 0.0, 0.0) == 92.96
    ensures RawScore(0.0) == 1.0 && RawScore(60.0) == 3.1 && RawScore(80.0) == 4.024 && RawScore(100.0) == 4.5
  {
  }
}
