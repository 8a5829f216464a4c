/**
 * Cursor-displacement arithmetic of the slider solvers: the scaling of a
 * template-match position into DOM pixels, the decelerating partition of a
 * drag distance into integer steps, and the equal-step drag of the simpler
 * solver.
 */
module Motion {

  // ---------------------------------------------------------------------
  // Randomness of the drag: any value in the range the source draws from
  // ---------------------------------------------------------------------

  /** `random.randint(lo, hi)`: any integer in the closed range. */
  method RandInt(lo: int, hi: int) returns (r: int)
    requires lo <= hi
    ensures lo <= r <= hi
  {
    r := *;
    if r < lo || r > hi {
      r := lo;
    }
  }

  /** `random.uniform(lo, hi)`: any real in the closed range. */
  method RandUniform(lo: real, hi: real) returns (r: real)
    requires lo <= hi
    ensures lo <= r <= hi
  {
    r := *;
    if r < lo || r > hi {
      r := lo;
    }
  }

  function Sum(s: seq<int>): int
    decreases |s|
  {
    if |s| == 0 then 0 else s[0] + Sum(s[1..])
  }

  function RealSum(s: seq<real>): real
    decreases |s|
  {
    if |s| == 0 then 0.0 else s[0] + RealSum(s[1..])
  }

  // ---------------------------------------------------------------------
  // Gap locator tail: centre of the piece, scaled to the rendered width
  // ---------------------------------------------------------------------

  /**
   * `int((max_loc_x + piece_width // 2) * (dom_width / bg_width))`: the notch
   * centre in image pixels, rescaled to DOM pixels and truncated.  The
   * result is the floor of the exact rational product.
   */
  function GapToDom(maxLocX: nat, pieceWidth: nat, domWidth: nat, bgWidth: nat): (x: nat)
    requires bgWidth > 0
    ensures x * bgWidth <= (maxLocX + pieceWidth / 2) * domWidth < (x + 1) * bgWidth
  {
    (maxLocX + pieceWidth / 2) * domWidth / bgWidth
  }

  /** A product with a positive factor is negative only when the other factor is. */
  lemma NegativeFactor(x: int, d: int)
    requires d > 0 && x * d < 0
    ensures x < 0
  {
  }

  lemma NonNegativeProduct(x: nat, y: nat)
    ensures x * y >= 0
  {
  }

  lemma DivAtMost(a: nat, k: nat)
    requires k > 0
    ensures a / k <= a
  {
    var q := a / k;
    assert a == q * k + a % k;
    assert q * k == q * (k - 1) + q;
    NonNegativeProduct(q, k - 1);
  }

  lemma DivMonotone(a: nat, b: nat, d: nat)
    requires a <= b && d > 0
    ensures a / d <= b / d
  {
    var qa, qb := a / d, b / d;
    assert qa * d <= a;
    assert b < (qb + 1) * d;
    assert (qa - qb - 1) * d == qa * d - (qb + 1) * d;
    NegativeFactor(qa - qb - 1, d);
  }

  /** When the image is displayed at its native width the scaling is the identity. */
  lemma GapToDomNative(maxLocX: nat, pieceWidth: nat, width: nat)
    requires width > 0
    ensures GapToDom(maxLocX, pieceWidth, width, width) == maxLocX + pieceWidth / 2
  {
    var c := maxLocX + pieceWidth / 2;
    var x := GapToDom(maxLocX, pieceWidth, width, width);
    assert (c - x - 1) * width == c * width - (x + 1) * width;
    NegativeFactor(c - x - 1, width);
    assert (x - c - 1) * width == x * width - c * width - width;
    NegativeFactor(x - c - 1, width);
  }

  lemma MulMonotone(a: nat, b: nat, k: nat)
    requires a <= b
    ensures a * k <= b * k
  {
  }

  /** A match further right never lands further left on screen. */
  lemma GapToDomMonotone(x1: nat, x2: nat, pieceWidth: nat, domWidth: nat, bgWidth: nat)
    requires bgWidth > 0 && x1 <= x2
    ensures GapToDom(x1, pieceWidth, domWidth, bgWidth) <= GapToDom(x2, pieceWidth, domWidth, bgWidth)
  {
    MulMonotone(x1 + pieceWidth / 2, x2 + pieceWidth / 2, domWidth);
    DivMonotone((x1 + pieceWidth / 2) * domWidth, (x2 + pieceWidth / 2) * domWidth, bgWidth);
  }

  // ---------------------------------------------------------------------
  // Decelerating integer partition (Jobvision_scraper.py)
  // ---------------------------------------------------------------------

  /** `int(max(0, target_x - 10))`: the drag stops ten pixels short of the target. */
  function MoveDistance(targetX: int): (d: nat)
    ensures d == 0 || d == targetX - 10
    ensures d >= targetX - 10
  {
    if targetX - 10 > 0 then targetX - 10 else 0
  }

  /** `max(6, int(move_x / 10))`: roughly one step per ten pixels, never fewer than six. */
  function StepCount(moveX: nat): (n: nat)
    ensures n >= 6
    ensures n >= moveX / 10
    ensures n == 6 || n == moveX / 10
  {
    if moveX / 10 > 6 then moveX / 10 else 6
  }

  /**
   * The nominal steps of the drag loop: with `k` steps left and `remaining`
   * pixels to go, the next step is `remaining // k`, and `remaining` shrinks
   * by exactly that step.
   */
  function Partition(remaining: nat, k: nat): seq<nat>
    decreases k
  {
    if k == 0 then []
    else
      DivAtMost(remaining, k);
      [remaining / k] + Partition(remaining - remaining / k, k - 1)
  }

  /** One step of the partition, as the drag loop takes it. */
  lemma PartitionStep(remaining: nat, k: nat)
    requires k > 0
    ensures remaining / k <= remaining
    ensures Partition(remaining, k) == [remaining / k] + Partition(remaining - remaining / k, k - 1)
  {
    DivAtMost(remaining, k);
  }

  /** The nominal steps the solver emits for a gap at `targetX`. */
  function NominalSteps(targetX: int): seq<nat> {
    Partition(MoveDistance(targetX), StepCount(MoveDistance(targetX)))
  }

  lemma {:induction false} PartitionLength(remaining: nat, k: nat)
    ensures |Partition(remaining, k)| == k
    decreases k
  {
    if k > 0 {
      DivAtMost(remaining, k);
      PartitionLength(remaining - remaining / k, k - 1);
    }
  }

  /** With at least one step the nominal steps add up to the whole distance. */
  lemma {:induction false} PartitionSum(remaining: nat, k: nat)
    requires k >= 1
    ensures Sum(Partition(remaining, k)) == remaining
    decreases k
  {
    var p := Partition(remaining, k);
    if k == 1 {
      assert p == [remaining];
      assert Sum(p) == remaining + Sum([]);
    } else {
      DivAtMost(remaining, k);
      PartitionSum(remaining - remaining / k, k - 1);
      assert p[1..] == Partition(remaining - remaining / k, k - 1);
    }
  }

  lemma DivLowerBound(a: nat, b: nat, q: nat)
    requires b > 0 && q * b <= a
    ensures q <= a / b
  {
    var r := a / b;
    assert a < (r + 1) * b;
    assert (q - r - 1) * b == q * b - (r + 1) * b;
    NegativeFactor(q - r - 1, b);
  }

  /** The step after `remaining // k` is never smaller than it. */
  lemma NextStepNotSmaller(remaining: nat, k: nat)
    requires k >= 2
    ensures remaining / k <= (remaining - remaining / k) / (k - 1)
  {
    var q := remaining / k;
    assert q * k <= remaining;
    assert q * (k - 1) == q * k - q;
    DivLowerBound(remaining - q, k - 1, q);
  }

  /** The nominal steps never shrink: the drag decelerates only through jitter. */
  lemma {:induction false} PartitionNondecreasing(remaining: nat, k: nat)
    ensures |Partition(remaining, k)| == k
    ensures forall i :: 0 <= i < k - 1 ==> Partition(remaining, k)[i] <= Partition(remaining, k)[i + 1]
    decreases k
  {
    PartitionLength(remaining, k);
    if k >= 2 {
      var p := Partition(remaining, k);
      DivAtMost(remaining, k);
      var rest := Partition(remaining - remaining / k, k - 1);
      PartitionNondecreasing(remaining - remaining / k, k - 1);
      assert p[1..] == rest;
      if k >= 3 {
        assert rest[0] == (remaining - remaining / k) / (k - 1);
      } else {
        assert rest == [(remaining - remaining / k) / 1];
      }
      NextStepNotSmaller(remaining, k);
      forall i | 0 <= i < k - 1
        ensures p[i] <= p[i + 1]
      {
        if i > 0 {
          assert p[i] == rest[i - 1] && p[i + 1] == rest[i];
        }
      }
    }
  }

  /**
   * The drag of Jobvision_scraper.py: at least six nominal steps, each
   * non-negative and no smaller than the one before, adding up to
   * `max(0, target_x - 10)`.
   */
  lemma NominalStepsShape(targetX: int)
    ensures |NominalSteps(targetX)| >= 6
    ensures |NominalSteps(targetX)| == StepCount(MoveDistance(targetX))
    ensures Sum(NominalSteps(targetX)) == MoveDistance(targetX)
    ensures forall i :: 0 <= i < |NominalSteps(targetX)| ==> NominalSteps(targetX)[i] >= 0
    ensures forall i :: 0 <= i < |NominalSteps(targetX)| - 1 ==> NominalSteps(targetX)[i] <= NominalSteps(targetX)[i + 1]
  {
    var d := MoveDistance(targetX);
    PartitionNondecreasing(d, StepCount(d));
    PartitionSum(d, StepCount(d));
  }

  // ---------------------------------------------------------------------
  // Equal steps (gitignore/final_scraper.py)
  // ---------------------------------------------------------------------

  /** `move_distance / steps`, the same horizontal size for every step. */
  function EqualStep(distance: int, steps: nat): real
    requires steps > 0
  {
    distance as real / steps as real
  }

  function EqualSteps(distance: int, steps: nat): seq<real>
    requires steps > 0
  {
    seq(steps, _ => EqualStep(distance, steps))
  }

  lemma {:induction false} ConstantSum(n: nat, c: real)
    ensures RealSum(seq(n, _ => c)) == n as real * c
  {
    if n > 0 {
      var s := seq(n, _ => c);
      assert s[1..] == seq(n - 1, _ => c);
      ConstantSum(n - 1, c);
    }
  }

  /** The equal steps cover exactly the requested distance. */
  lemma EqualStepsSum(distance: int, steps: nat)
    requires steps > 0
    ensures |EqualSteps(distance, steps)| == steps
    ensures RealSum(EqualSteps(distance, steps)) == distance as real
  {
    ConstantSum(steps, EqualStep(distance, steps));
    assert EqualSteps(distance, steps) == seq(steps, _ => EqualStep(distance, steps));
  }
}
