/**
 * The captcha memory of gitignore/memory_saver.py: an average hash of the
 * 32x32 grey-scale canvas, a Hamming-distance lookup of the nearest stored
 * hash, the record-mode session that stores one solution per manually
 * solved captcha, and the automatic solver that never claims success.
 *
 * The screenshot, its grey-scale conversion and `cv2.resize` are taken as
 * given: the model starts from the 1024 resized pixel values in row order.
 */
module CaptchaMemory {
  import opened Text
  import opened Motion

  const GRID_SIDE := 32
  const GRID_CELLS := GRID_SIDE * GRID_SIDE
  /** The similarity a stored hash must exceed to be used. */
  const MATCH_THRESHOLD: real := 0.85

  // ---------------------------------------------------------------------
  // Average hash
  // ---------------------------------------------------------------------

  /** `resized.mean()`. */
  function Mean(pixels: seq<int>): real
    requires |pixels| > 0
  {
    Sum(pixels) as real / |pixels| as real
  }

  lemma AboveMean(x: int, s: int, n: nat)
    requires n > 0
    ensures x as real > s as real / n as real <==> n * x > s
  {
    var m := s as real / n as real;
    assert m * n as real == s as real;
    if x as real > m {
      assert x as real * n as real > m * n as real;
    }
    if n * x > s {
      assert (x as real - m) * n as real == (n * x) as real - s as real;
    }
  }

  /**
   * `compute_image_hash`: one character per pixel in row order, '1' exactly
   * when the pixel is strictly above the mean, stated here without division.
   */
  function ComputeImageHash(pixels: seq<int>): (h: string)
    requires |pixels| == GRID_CELLS
    ensures |h| == GRID_CELLS
    ensures forall i :: 0 <= i < |h| ==> h[i] == '0' || h[i] == '1'
    ensures forall i :: 0 <= i < |h| ==> (h[i] == '1' <==> GRID_CELLS * pixels[i] > Sum(pixels))
  {
    var mean := Mean(pixels);
    var h := seq(|pixels|, i requires 0 <= i < |pixels| => if pixels[i] as real > mean then '1' else '0');
    forall i | 0 <= i < |h|
      ensures h[i] == '1' <==> GRID_CELLS * pixels[i] > Sum(pixels)
    {
      AboveMean(pixels[i], Sum(pixels), |pixels|);
    }
    h
  }

  lemma {:induction false} SumConstant(s: seq<int>, c: int)
    requires forall i :: 0 <= i < |s| ==> s[i] == c
    ensures Sum(s) == |s| * c
    decreases |s|
  {
    if |s| > 0 {
      SumConstant(s[1..], c);
      assert |s| * c == c + (|s| - 1) * c;
    }
  }

  /** A uniform grid hashes to all zeros. */
  lemma UniformGridHashesToZeros(pixels: seq<int>, c: int)
    requires |pixels| == GRID_CELLS
    requires forall i :: 0 <= i < |pixels| ==> pixels[i] == c
    ensures ComputeImageHash(pixels) == seq(GRID_CELLS, _ => '0')
  {
    SumConstant(pixels, c);
    var h := ComputeImageHash(pixels);
    forall i | 0 <= i < GRID_CELLS
      ensures h[i] == '0'
    {
      assert GRID_CELLS * pixels[i] == Sum(pixels);
    }
  }

  /** If every value is above `s / n`, their sum is above `|xs| * s / n`. */
  lemma {:induction false} SumAboveBound(xs: seq<int>, n: int, s: int)
    requires |xs| > 0
    requires forall i :: 0 <= i < |xs| ==> n * xs[i] > s
    ensures n * Sum(xs) > |xs| * s
    decreases |xs|
  {
    assert n * Sum(xs) == n * xs[0] + n * Sum(xs[1..]);
    if |xs| > 1 {
      SumAboveBound(xs[1..], n, s);
      assert |xs| * s == s + (|xs| - 1) * s;
    }
  }

  /** No grid hashes to all ones: some pixel is never above the mean. */
  lemma HashNeverAllOnes(pixels: seq<int>)
    requires |pixels| == GRID_CELLS
    ensures exists i :: 0 <= i < GRID_CELLS && ComputeImageHash(pixels)[i] == '0'
  {
    var h := ComputeImageHash(pixels);
    if forall i :: 0 <= i < GRID_CELLS ==> h[i] == '1' {
      SumAboveBound(pixels, GRID_CELLS, Sum(pixels));
      assert false;
    }
  }

  // ---------------------------------------------------------------------
  // Hamming distance
  // ---------------------------------------------------------------------

  /** `sum(c1 != c2 for c1, c2 in zip(a, b))`: mismatches over the shorter length. */
  function HammingDistance(a: string, b: string): (d: nat)
    ensures d <= |a| && d <= |b|
    decreases |a|
  {
    if |a| == 0 || |b| == 0 then 0
    else (if a[0] != b[0] then 1 else 0) + HammingDistance(a[1..], b[1..])
  }

  lemma {:induction false} HammingSymmetric(a: string, b: string)
    ensures HammingDistance(a, b) == HammingDistance(b, a)
    decreases |a|
  {
    if |a| > 0 && |b| > 0 {
      HammingSymmetric(a[1..], b[1..]);
    }
  }

  /** Equal-length strings are at distance zero exactly when they are equal. */
  lemma {:induction false} HammingZeroIffEqual(a: string, b: string)
    requires |a| == |b|
    ensures HammingDistance(a, b) == 0 <==> a == b
    decreases |a|
  {
    if |a| > 0 {
      HammingZeroIffEqual(a[1..], b[1..]);
      if a[1..] == b[1..] && a[0] == b[0] {
        assert a == [a[0]] + a[1..] && b == [b[0]] + b[1..];
      }
    }
  }

  // ---------------------------------------------------------------------
  // Stored solutions
  // ---------------------------------------------------------------------

  /** A stored solution: the hash it was recorded for, how, and when. */
  datatype Solution = Solution(hash: string, how: string, timestamp: real)

  const MANUAL := "manual"

  /** The `solutions` dictionary as its items in insertion order. */
  type Table = seq<(string, Solution)>

  function Keys(t: Table): (ks: seq<string>)
    ensures |ks| == |t|
    ensures forall i :: 0 <= i < |t| ==> ks[i] == t[i].0
  {
    seq(|t|, i requires 0 <= i < |t| => t[i].0)
  }

  predicate DistinctKeys(t: Table) {
    forall i, j :: 0 <= i < j < |t| ==> t[i].0 != t[j].0
  }

  /** `solutions[key] = value`: an existing key keeps its place, a new one goes last. */
  function Put(t: Table, key: string, value: Solution): Table
    decreases |t|
  {
    if |t| == 0 then [(key, value)]
    else if t[0].0 == key then [(key, value)] + t[1..]
    else [t[0]] + Put(t[1..], key, value)
  }

  lemma TailDistinct(t: Table)
    requires |t| > 0 && DistinctKeys(t)
    ensures DistinctKeys(t[1..])
  {
    forall i, j | 0 <= i < j < |t| - 1
      ensures t[1..][i].0 != t[1..][j].0
    {
      assert t[1..][i] == t[i + 1] && t[1..][j] == t[j + 1];
    }
  }

  lemma KeysCons(t: Table)
    requires |t| > 0
    ensures forall k :: k in Keys(t) <==> k == t[0].0 || k in Keys(t[1..])
  {
    assert Keys(t) == [t[0].0] + Keys(t[1..]);
  }

  lemma {:induction false} PutLength(t: Table, key: string, value: Solution)
    ensures |Put(t, key, value)| == if key in Keys(t) then |t| else |t| + 1
    decreases |t|
  {
    if |t| > 0 {
      KeysCons(t);
      if t[0].0 != key {
        PutLength(t[1..], key, value);
      }
    }
  }

  /** Entries with another key are kept by `Put`, and the key gets the new value. */
  lemma {:induction false} PutKeeps(t: Table, key: string, value: Solution)
    ensures (key, value) in Put(t, key, value)
    ensures forall e :: e in t && e.0 != key ==> e in Put(t, key, value)
    decreases |t|
  {
    if |t| > 0 {
      var r := Put(t, key, value);
      if t[0].0 != key {
        PutKeeps(t[1..], key, value);
        assert r == [t[0]] + Put(t[1..], key, value);
        forall e | e in t && e.0 != key
          ensures e in r
        {
          if e != t[0] {
            assert e in t[1..];
          }
        }
      } else {
        assert r == [(key, value)] + t[1..];
        forall e | e in t && e.0 != key
          ensures e in r
        {
          assert e in t[1..];
        }
      }
    }
  }

  /** With distinct keys, `Put` adds nothing but the new pair. */
  lemma {:induction false} PutOnly(t: Table, key: string, value: Solution)
    requires DistinctKeys(t)
    ensures forall e :: e in Put(t, key, value) ==> e == (key, value) || (e in t && e.0 != key)
    decreases |t|
  {
    if |t| > 0 {
      var r := Put(t, key, value);
      if t[0].0 != key {
        TailDistinct(t);
        PutOnly(t[1..], key, value);
        assert r == [t[0]] + Put(t[1..], key, value);
        forall e | e in r
          ensures e == (key, value) || (e in t && e.0 != key)
        {
          if e != t[0] {
            assert e in Put(t[1..], key, value);
          }
        }
      } else {
        assert r == [(key, value)] + t[1..];
        forall e | e in r
          ensures e == (key, value) || (e in t && e.0 != key)
        {
          if e != (key, value) {
            var i :| 0 <= i < |t[1..]| && t[1..][i] == e;
            assert t[i + 1] == e;
          }
        }
      }
    }
  }

  /** `Put` keeps the keys distinct. */
  lemma {:induction false} PutDistinct(t: Table, key: string, value: Solution)
    requires DistinctKeys(t)
    ensures DistinctKeys(Put(t, key, value))
    decreases |t|
  {
    if |t| > 0 {
      var r := Put(t, key, value);
      if t[0].0 != key {
        TailDistinct(t);
        PutDistinct(t[1..], key, value);
        PutOnly(t[1..], key, value);
        var rest := Put(t[1..], key, value);
        assert r == [t[0]] + rest;
        forall j | 0 < j < |r|
          ensures r[0].0 != r[j].0
        {
          assert r[j] == rest[j - 1];
          assert r[j] in rest;
          if r[j] != (key, value) {
            var m :| 0 <= m < |t[1..]| && t[1..][m] == r[j];
            assert t[m + 1] == r[j];
          }
        }
      } else {
        assert r == [(key, value)] + t[1..];
        forall i, j | 0 <= i < j < |r|
          ensures r[i].0 != r[j].0
        {
          assert r[j] == t[j];
          if i > 0 {
            assert r[i] == t[i];
          }
        }
      }
    }
  }

  /**
   * After `Put` the key maps to the new value and the other entries are
   * untouched; the table grows by one exactly when the key was new, and
   * keys stay distinct.
   */
  lemma PutSpec(t: Table, key: string, value: Solution)
    requires DistinctKeys(t)
    ensures DistinctKeys(Put(t, key, value))
    ensures (key, value) in Put(t, key, value)
    ensures |Put(t, key, value)| == if key in Keys(t) then |t| else |t| + 1
    ensures forall e :: e in t && e.0 != key ==> e in Put(t, key, value)
    ensures forall e :: e in Put(t, key, value) ==> e == (key, value) || (e in t && e.0 != key)
  {
    PutLength(t, key, value);
    PutKeeps(t, key, value);
    PutOnly(t, key, value);
    PutDistinct(t, key, value);
  }

  // ---------------------------------------------------------------------
  // Nearest stored hash
  // ---------------------------------------------------------------------

  function DistanceTo(h: string, t: Table, j: int): nat
    requires 0 <= j < |t|
  {
    HammingDistance(h, t[j].0)
  }

  /** Entry `k` is at the smallest distance from `h`, and no earlier entry is. */
  predicate IsFirstNearest(h: string, t: Table, k: int) {
    0 <= k < |t| &&
    (forall j :: 0 <= j < |t| ==> DistanceTo(h, t, k) <= DistanceTo(h, t, j)) &&
    (forall j :: 0 <= j < k ==> DistanceTo(h, t, k) < DistanceTo(h, t, j))
  }

  /** There is at most one first nearest entry. */
  lemma FirstNearestUnique(h: string, t: Table, k1: int, k2: int)
    requires IsFirstNearest(h, t, k1) && IsFirstNearest(h, t, k2)
    ensures k1 == k2
  {
    assert DistanceTo(h, t, k1) == DistanceTo(h, t, k2);
  }

  /**
   * The scan of `find_matching_solution`: starting from an infinite
   * minimum, an entry replaces the best so far only when strictly closer.
   */
  method Nearest(h: string, solutions: Table) returns (index: nat, minDistance: nat)
    requires solutions != []
    ensures IsFirstNearest(h, solutions, index)
    ensures minDistance == DistanceTo(h, solutions, index)
  {
    index, minDistance := 0, HammingDistance(h, solutions[0].0);
    for i := 1 to |solutions|
      invariant index < i
      invariant minDistance == DistanceTo(h, solutions, index)
      invariant forall j :: 0 <= j < i ==> minDistance <= DistanceTo(h, solutions, j)
      invariant forall j :: 0 <= j < index ==> minDistance < DistanceTo(h, solutions, j)
    {
      var distance := HammingDistance(h, solutions[i].0);
      if distance < minDistance {
        index, minDistance := i, distance;
      }
    }
  }

  /** `1 - min_distance / len(current_hash)` on a 1024-bit hash. */
  function Similarity(distance: nat): real {
    1.0 - distance as real / GRID_CELLS as real
  }

  /** The similarity is above 0.85 exactly when fewer than 15% of the bits differ. */
  lemma SimilarityThreshold(distance: nat)
    ensures Similarity(distance) > MATCH_THRESHOLD <==> 20 * distance < 3 * GRID_CELLS
  {
  }

  /**
   * `find_matching_solution`: the first entry with the smallest distance to
   * the canvas hash, returned with its similarity when that similarity is
   * above 0.85 (for 1024-bit hashes: fewer than 154 differing bits), and
   * `(None, 0)` otherwise, in particular for an empty table.
   */
  method FindMatchingSolution(pixels: seq<int>, solutions: Table) returns (best: Option<Solution>, similarity: real, ghost index: nat)
    requires |pixels| == GRID_CELLS
    ensures solutions != [] ==> IsFirstNearest(ComputeImageHash(pixels), solutions, index)
    ensures best.Some? <==> (solutions != [] && 20 * DistanceTo(ComputeImageHash(pixels), solutions, index) < 3 * GRID_CELLS)
    ensures best.Some? ==> (best.value == solutions[index].1 && similarity > MATCH_THRESHOLD &&
                            similarity == Similarity(DistanceTo(ComputeImageHash(pixels), solutions, index)))
    ensures best.None? ==> similarity == 0.0
  {
    if solutions == [] {
      return None, 0.0, 0;
    }
    var h := ComputeImageHash(pixels);
    var k, minDistance := Nearest(h, solutions);
    index := k;
    similarity := 1.0 - minDistance as real / |h| as real;
    SimilarityThreshold(minDistance);
    if similarity > MATCH_THRESHOLD {
      best := Some(solutions[k].1);
    } else {
      best, similarity := None, 0.0;
    }
  }

  // ---------------------------------------------------------------------
  // The page as an oracle, recording and automatic solving
  // ---------------------------------------------------------------------

  class CaptchaPage {
    /** Screenshots taken of the canvas. */
    ghost var screenshots: nat
    /** Reloads of the login page with the email submitted again. */
    ghost var reloads: nat
    /** Screenshots that raised instead of yielding the canvas. */
    ghost var failures: nat
    /** The canvases captured, in order. */
    ghost var grids: seq<seq<int>>
    /** Waits that ended with the canvas gone: captchas the user solved. */
    ghost var handSolved: nat

    constructor()
      ensures screenshots == 0 && reloads == 0 && failures == 0 && grids == [] && handSolved == 0
    {
      screenshots, reloads, failures := 0, 0, 0;
      grids, handSolved := [], 0;
    }

    /** Screenshot, crop to the canvas, grey-scale and resize: the 1024 pixels, or `None` when it raises. */
    method CanvasPixels() returns (pixels: Option<seq<int>>)
      modifies this
      ensures pixels.Some? ==> |pixels.value| == GRID_CELLS
      ensures screenshots == old(screenshots) + 1 && reloads == old(reloads)
      ensures failures == old(failures) + if pixels.None? then 1 else 0
      ensures grids == old(grids) + if pixels.Some? then [pixels.value] else []
      ensures handSolved == old(handSolved)
    {
      var shot: Option<seq<int>> := *;
      pixels := if shot.Some? && |shot.value| == GRID_CELLS then Some(shot.value) else None;
      screenshots := screenshots + 1;
      if pixels.Some? {
        grids := grids + [pixels.value];
      } else {
        failures := failures + 1;
      }
    }

    /** Wait up to two minutes for the canvas to disappear, that is for the user to solve it. */
    method CanvasDisappears() returns (gone: bool)
      modifies this
      ensures handSolved == old(handSolved) + if gone then 1 else 0
      ensures screenshots == old(screenshots) && reloads == old(reloads) && failures == old(failures) && grids == old(grids)
    {
      gone := *;
      if gone {
        handSolved := handSolved + 1;
      }
    }

    /** `time.time()`. */
    method Now() returns (t: real)
    {
      t := *;
    }

    /** Reload the page and submit the email again; a failure asks the user to do it. */
    method ReloadAndSubmitEmail()
      modifies this
      ensures reloads == old(reloads) + 1
      ensures screenshots == old(screenshots) && failures == old(failures)
      ensures grids == old(grids) && handSolved == old(handSolved)
    {
      reloads := reloads + 1;
    }
  }

  /** What `record_manual_solution` returns: both halves, or neither. */
  datatype Recorded = Recorded(hash: Option<string>, solution: Option<Solution>)

  /**
   * `record_manual_solution`: hash the canvas, wait for the user to solve
   * it, and return the hash of the captured canvas with a manual solution
   * carrying that same hash, or `(None, None)` when the wait fails.  A
   * failed screenshot is not caught here (`raised`).
   */
  method RecordManualSolution(page: CaptchaPage) returns (r: Recorded, raised: bool, ghost shot: seq<int>)
    modifies page
    ensures page.screenshots == old(page.screenshots) + 1 && page.reloads == old(page.reloads)
    ensures page.failures == old(page.failures) + if raised then 1 else 0
    ensures page.grids == old(page.grids) + if raised then [] else [shot]
    ensures !raised ==> |shot| == GRID_CELLS
    ensures r.hash.Some? ==> !raised && r.hash.value == ComputeImageHash(shot)
    ensures page.handSolved == old(page.handSolved) + if r.hash.Some? then 1 else 0
    ensures raised ==> r == Recorded(None, None)
    ensures r.hash.Some? <==> r.solution.Some?
    ensures r.solution.Some? ==> r.solution.value.hash == r.hash.value && r.solution.value.how == MANUAL &&
                                 |r.hash.value| == GRID_CELLS
  {
    shot := [];
    var pixels := page.CanvasPixels();
    if pixels.None? {
      return Recorded(None, None), true, shot;
    }
    shot := pixels.value;
    var hash := ComputeImageHash(pixels.value);
    var gone := page.CanvasDisappears();
    if !gone {
      return Recorded(None, None), false, shot;
    }
    var t := page.Now();
    r, raised := Recorded(Some(hash), Some(Solution(hash, MANUAL, t))), false;
  }

  /**
   * `auto_solve_captcha`: it looks up the nearest stored solution but has
   * no way to replay it, so it reports failure on every path.
   */
  method AutoSolveCaptcha(page: CaptchaPage, solutions: Table) returns (solved: bool)
    modifies page
    ensures !solved
  {
    var pixels := page.CanvasPixels();
    if pixels.None? {
      return false;
    }
    var best, similarity, index := FindMatchingSolution(pixels.value, solutions);
    if best.Some? {
      solved := false;
    } else {
      solved := false;
    }
  }

  /** The table update of record mode: a new entry only when both halves were returned. */
  function RecordStep(t: Table, r: Recorded): Table {
    if r.hash.Some? && r.solution.Some? then Put(t, r.hash.value, r.solution.value) else t
  }

  lemma RecordStepSpec(t: Table, r: Recorded)
    requires DistinctKeys(t)
    ensures DistinctKeys(RecordStep(t, r))
    ensures r.hash.None? || r.solution.None? ==> RecordStep(t, r) == t
    ensures r.hash.Some? && r.solution.Some? ==> (r.hash.value, r.solution.value) in RecordStep(t, r)
    ensures |t| <= |RecordStep(t, r)| <= |t| + 1
    ensures forall e :: e in t && (r.hash.None? || r.solution.None? || e.0 != r.hash.value) ==> e in RecordStep(t, r)
  {
    if r.hash.Some? && r.solution.Some? {
      PutSpec(t, r.hash.value, r.solution.value);
    }
  }

  /** The table after storing the rounds in order, each by `RecordStep`. */
  function RecordAll(t: Table, rounds: seq<Recorded>): Table
    decreases |rounds|
  {
    if |rounds| == 0 then t
    else RecordStep(RecordAll(t, rounds[..|rounds| - 1]), rounds[|rounds| - 1])
  }

  /**
   * A round that returned both halves leaves its solution in the table
   * unless a later round recorded the same hash again.
   */
  lemma {:induction false} RecordAllStored(t: Table, rounds: seq<Recorded>, k: nat)
    requires k < |rounds| && rounds[k].hash.Some? && rounds[k].solution.Some?
    requires forall j :: k < j < |rounds| && rounds[j].hash.Some? && rounds[j].solution.Some? ==>
               rounds[j].hash != rounds[k].hash
    ensures (rounds[k].hash.value, rounds[k].solution.value) in RecordAll(t, rounds)
    decreases |rounds|
  {
    var n := |rounds| - 1;
    var key, value := rounds[k].hash.value, rounds[k].solution.value;
    if k == n {
      PutKeeps(RecordAll(t, rounds[..n]), key, value);
    } else {
      RecordAllStored(t, rounds[..n], k);
      var last := rounds[n];
      if last.hash.Some? && last.solution.Some? {
        PutKeeps(RecordAll(t, rounds[..n]), last.hash.value, last.solution.value);
      }
    }
  }

  /** Record mode keeps the keys distinct and adds at most one entry per round. */
  lemma {:induction false} RecordAllSpec(t: Table, rounds: seq<Recorded>)
    requires DistinctKeys(t)
    ensures DistinctKeys(RecordAll(t, rounds))
    ensures |t| <= |RecordAll(t, rounds)| <= |t| + |rounds|
    ensures (forall r :: r in rounds ==> r.hash.None?) ==> RecordAll(t, rounds) == t
    decreases |rounds|
  {
    if |rounds| > 0 {
      var n := |rounds| - 1;
      RecordAllSpec(t, rounds[..n]);
      RecordStepSpec(RecordAll(t, rounds[..n]), rounds[n]);
      if forall r :: r in rounds ==> r.hash.None? {
        assert forall r :: r in rounds[..n] ==> r in rounds;
        assert rounds[n] in rounds;
      }
    }
  }

  /** The rounds whose captcha the user solved, so that a hash was returned. */
  function HashedRounds(rounds: seq<Recorded>): (n: nat)
    ensures n <= |rounds|
    decreases |rounds|
  {
    if |rounds| == 0 then 0
    else HashedRounds(rounds[..|rounds| - 1]) + if rounds[|rounds| - 1].hash.Some? then 1 else 0
  }

  const RECORD_ROUNDS := 6

  /**
   * Record mode of `main`: six rounds of manual solving, each storing what
   * it recorded, with a reload and the email typed again between rounds.
   * A screenshot that raises ends the session: fewer than six rounds
   * complete exactly when one did, and that screenshot is the only one
   * beyond one per completed round.  Round `k` hashed the `k`-th canvas
   * captured in the session, and holds a manual solution for that hash
   * exactly when the user solved that captcha.  The table is the rounds stored
   * in order (`RecordAll`), so it keeps distinct keys and grows by at most
   * one entry per round.
   */
  method RecordSession(page: CaptchaPage, solutions: Table) returns (table: Table, ghost rounds: seq<Recorded>, ghost shots: seq<seq<int>>)
    requires DistinctKeys(solutions)
    modifies page
    ensures table == RecordAll(solutions, rounds)
    ensures DistinctKeys(table)
    ensures |rounds| <= RECORD_ROUNDS
    ensures page.screenshots == old(page.screenshots) + |rounds| + if |rounds| < RECORD_ROUNDS then 1 else 0
    ensures page.failures == old(page.failures) + if |rounds| < RECORD_ROUNDS then 1 else 0
    ensures page.grids == old(page.grids) + shots && |shots| == |rounds|
    ensures forall k :: 0 <= k < |rounds| ==>
              |shots[k]| == GRID_CELLS && (rounds[k].hash.Some? ==> rounds[k].hash.value == ComputeImageHash(shots[k]))
    ensures page.handSolved == old(page.handSolved) + HashedRounds(rounds)
    ensures |solutions| <= |table| <= |solutions| + |rounds|
    ensures forall r :: r in rounds ==> (r.hash.Some? <==> r.solution.Some?)
    ensures forall r :: r in rounds && r.solution.Some? ==>
              r.solution.value.hash == r.hash.value && r.solution.value.how == MANUAL && |r.hash.value| == GRID_CELLS
    ensures (forall r :: r in rounds ==> r.hash.None?) ==> table == solutions
    ensures page.reloads == old(page.reloads) + Min(|rounds|, RECORD_ROUNDS - 1)
  {
    table, rounds, shots := solutions, [], [];
    var i := 0;
    while i < RECORD_ROUNDS
      invariant 0 <= i <= RECORD_ROUNDS && |rounds| == i
      invariant table == RecordAll(solutions, rounds)
      invariant DistinctKeys(table)
      invariant |solutions| <= |table| <= |solutions| + i
      invariant forall r :: r in rounds ==> (r.hash.Some? <==> r.solution.Some?)
      invariant forall r :: r in rounds && r.solution.Some? ==>
                  r.solution.value.hash == r.hash.value && r.solution.value.how == MANUAL && |r.hash.value| == GRID_CELLS
      invariant page.screenshots == old(page.screenshots) + i && page.failures == old(page.failures)
      invariant page.grids == old(page.grids) + shots && |shots| == i
      invariant forall k :: 0 <= k < i ==>
                  |shots[k]| == GRID_CELLS && (rounds[k].hash.Some? ==> rounds[k].hash.value == ComputeImageHash(shots[k]))
      invariant page.handSolved == old(page.handSolved) + HashedRounds(rounds)
      invariant (forall r :: r in rounds ==> r.hash.None?) ==> table == solutions
      invariant page.reloads == old(page.reloads) + Min(i, RECORD_ROUNDS - 1)
    {
      var r, raised;
      ghost var shot;
      r, raised, shot := RecordManualSolution(page);
      if raised {
        return table, rounds, shots;
      }
      RecordStepSpec(table, r);
      if r.hash.Some? && r.solution.Some? {
        table := Put(table, r.hash.value, r.solution.value);
      }
      rounds := rounds + [r];
      assert rounds[..|rounds| - 1] == rounds[..i];
      shots := shots + [shot];
      assert page.grids == old(page.grids) + shots;
      if i < RECORD_ROUNDS - 1 {
        page.ReloadAndSubmitEmail();
      }
      i := i + 1;
    }
  }
}
