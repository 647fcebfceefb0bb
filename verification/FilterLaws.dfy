/** What the upsampling filter does to signals: its impulse response, tap by tap, its linear phase and main
    lobe, and its response to constant and to rising input. */
module FilterLaws {
  import opened Upsampler

  // ---------------------------------------------------------------------------------------------
  // The impulse response
  // ---------------------------------------------------------------------------------------------

  /** The rising half of the impulse response, one output sample after the other: twelve input periods of
      six taps at 8 kHz. */
  const RISE8: seq<seq<int>> := [
    [19, 31, 49, 65, 72, 64], [34, -19, -92, -175, -254, -311],
    [-327, -291, -203, -73, 75, 210], [297, 310, 236, 84, -117, -320],
    [-471, -523, -447, -245, 46, 363], [625, 755, 703, 457, 58, -407],
    [-823, -1075, -1073, -786, -256, 410], [1049, 1489, 1588, 1276, 583, -356],
    [-1321, -2061, -2347, -2040, -1141, 196], [1680, 2935, 3592, 3377, 2197, 191],
    [-2265, -4611, -6200, -6428, -4866, -1369], [3861, 10285, 17094, 23348, 28131, 30721]]

  /** And of three taps at 16 kHz. */
  const RISE16: seq<seq<int>> := [
    [16, 26, 1], [-86, -212, -291], [-220, 6, 248], [292, 45, -327],
    [-478, -185, 383], [722, 414, -405], [-1031, -764, 362], [1418, 1290, -212],
    [-1913, -2099, -129], [2603, 3470, 875], [-3795, -6431, -2948], [7324, 20320, 29344]]

  /** Tap `r` of input period `c` of the impulse response, which falls as it has risen. */
  function Tap(ratio: nat, c: nat, r: nat): int
    requires Ratio(ratio) && c < 24 && r < ratio
  {
    if ratio == 6 then if c < 12 then RISE8[c][r] else RISE8[23 - c][5 - r]
    else if c < 12 then RISE16[c][r] else RISE16[23 - c][2 - r]
  }

  lemma RowsLow8(i: nat)
    requires i < 24
    ensures ROW8_0[i] == Tap(6, 23 - i, 0) && ROW8_1[i] == Tap(6, 23 - i, 1) && ROW8_2[i] == Tap(6, 23 - i, 2)
  {
  }

  lemma RowsHigh8(i: nat)
    requires i < 24
    ensures ROW8_3[i] == Tap(6, 23 - i, 3) && ROW8_4[i] == Tap(6, 23 - i, 4) && ROW8_5[i] == Tap(6, 23 - i, 5)
  {
  }

  lemma Rows16(i: nat)
    requires i < 24
    ensures ROW16_0[i] == Tap(3, 23 - i, 0) && ROW16_1[i] == Tap(3, 23 - i, 1) && ROW16_2[i] == Tap(3, 23 - i, 2)
  {
  }

  /** The coefficients of a phase are its taps, the latest sample last. */
  lemma RowIsTaps(ratio: nat, p: nat, i: nat)
    requires Ratio(ratio) && p < ratio && i < 24
    ensures Row(ratio, p)[i] == Tap(ratio, 23 - i, p)
  {
    hide Tap;
    if ratio == 6 {
      RowsLow8(i);
      RowsHigh8(i);
    } else {
      Rows16(i);
    }
  }

  ghost predicate Single(s: seq<int>, m: nat, v: int) {
    m < |s| && forall i | 0 <= i < |s| :: s[i] == if i == m then v else 0
  }

  lemma {:induction false} SingleMac(row: seq<int>, x: seq<int>, m: nat, v: int, n: nat)
    requires |row| == |x| && Single(x, m, v) && n <= |row|
    ensures Mac(row, x, n) == if m < n then v * row[m] else 0
  {
    if n > 0 {
      SingleMac(row, x, m, v, n - 1);
      assert n - 1 != m ==> Times(x[n - 1], row[n - 1]) == 0;
    }
  }

  lemma {:induction false} ZeroMac(row: seq<int>, x: seq<int>, n: nat)
    requires |row| == |x| && n <= |row| && forall i | 0 <= i < |x| :: x[i] == 0
    ensures Mac(row, x, n) == 0
  {
    if n > 0 {
      ZeroMac(row, x, n - 1);
    }
  }

  /** One sample `v` among zeros, within the level the accumulators take, gives `v` times the impulse
      response, from the outputs of its own period on, and nothing before or after. */
  lemma ImpulseResponse(ratio: nat, s: seq<int>, m: nat, v: int, k: nat, p: nat)
    requires Ratio(ratio) && Single(s, m, v) && Abs(v) <= Limit(ratio) && |s| >= 23
    requires k < |s| - 23 && p < ratio
    ensures 0 <= ratio * k + p < |Polyphase(ratio, s)|
    ensures Polyphase(ratio, s)[ratio * k + p]
         == if k <= m <= k + 23 then v * Tap(ratio, k + 23 - m, p) / 0x1_0000 else 0
  {
    hide Row, Polyphase, Tap, Limit;
    var x, row := s[k..k + 24], Row(ratio, p);
    ExactWithinLimit(ratio, s, k, p) by {
      assert Within(s, Limit(ratio));
    }
    if k <= m <= k + 23 {
      SingleMac(row, x, m - k, v, 24);
      RowIsTaps(ratio, p, m - k);
    } else {
      ZeroMac(row, x, 24);
    }
  }

  // ---------------------------------------------------------------------------------------------
  // Its shape
  // ---------------------------------------------------------------------------------------------

  /** The delay is the same for all frequencies: the prototype is its own mirror image. */
  lemma LinearPhase(ratio: nat, j: nat)
    requires Ratio(ratio) && j < 24 * ratio
    ensures j / ratio < 24 && (24 * ratio - 1 - j) / ratio < 24
    ensures Prototype(ratio, j) == Prototype(ratio, 24 * ratio - 1 - j)
  {
    var c, r := j / ratio, j % ratio;
    Split(ratio, j);
    hide Row, Tap;
    PrototypeAt(ratio, c, r);
    PrototypeAt(ratio, 23 - c, ratio - 1 - r);
    RowIsTaps(ratio, r, 23 - c);
    RowIsTaps(ratio, ratio - 1 - r, c);
    TapsMirrored(ratio, c, r);
  }

  lemma Split(ratio: nat, j: nat)
    requires Ratio(ratio) && j < 24 * ratio
    ensures var c, r := j / ratio, j % ratio;
            c < 24 && r < ratio && j == ratio * c + r
            && 24 * ratio - 1 - j == ratio * (23 - c) + (ratio - 1 - r)
            && (24 * ratio - 1 - j) / ratio == 23 - c
  {
    if ratio == 3 {
    } else {
    }
  }

  lemma TapsMirrored(ratio: nat, c: nat, r: nat)
    requires Ratio(ratio) && c < 24 && r < ratio
    ensures Tap(ratio, c, r) == Tap(ratio, 23 - c, ratio - 1 - r)
  {
  }

  /** It rises strictly from its lowest tap to its centre. */
  lemma MainLobe8(j: nat)
    requires 63 <= j < 71
    ensures Prototype(6, j) < Prototype(6, j + 1)
  {
  }

  lemma MainLobe16(j: nat)
    requires 31 <= j < 35
    ensures Prototype(3, j) < Prototype(3, j + 1)
  {
  }

  // ---------------------------------------------------------------------------------------------
  // Constant and rising input
  // ---------------------------------------------------------------------------------------------

  /** The sum of the coefficients of a phase. */
  function PhaseSum(ratio: nat, p: nat): (n: nat)
    requires Ratio(ratio) && p < ratio
  {
    if ratio == 6 then [31750, 31753, 31760, 31760, 31753, 31750][p] else [31753, 31760, 31753][p]
  }

  /** And of the coefficients times their place. */
  function PhaseMoment(ratio: nat, p: nat): (n: nat)
    requires Ratio(ratio) && p < ratio
  {
    if ratio == 6 then [352006, 357228, 362572, 367908, 373091, 378244][p] else [354637, 365240, 375682][p]
  }

  function RampOf(a: int, b: int, n: nat): (s: seq<int>)
    ensures |s| == n && forall i | 0 <= i < n :: s[i] == a + b * i
  {
    seq(n, i => a + b * i)
  }

  lemma MacSix(row: seq<int>, x: seq<int>, n: nat)
    requires n + 6 <= |row| && n + 6 <= |x|
    ensures Mac(row, x, n + 6)
         == Mac(row, x, n) + Times(x[n], row[n]) + Times(x[n + 1], row[n + 1]) + Times(x[n + 2], row[n + 2])
            + Times(x[n + 3], row[n + 3]) + Times(x[n + 4], row[n + 4]) + Times(x[n + 5], row[n + 5])
  {
    hide Times;
    assert Mac(row, x, n + 2) == Mac(row, x, n) + Times(x[n], row[n]) + Times(x[n + 1], row[n + 1]);
    assert Mac(row, x, n + 4) == Mac(row, x, n + 2) + Times(x[n + 2], row[n + 2]) + Times(x[n + 3], row[n + 3]);
  }

  lemma RampTerm(a: int, b: int, i: int, c: int, m: int, n: int)
    ensures Times(a + b * i, c) == a * Times(1, c) + b * Times(i, c)
    ensures a * m + b * n + Times(a + b * i, c) == a * (m + Times(1, c)) + b * (n + Times(i, c))
  {
    assert (a + b * i) * c == a * c + b * (i * c);
  }

  /** A ramp is a constant and a slope. */
  lemma {:induction false} MacRamp(row: seq<int>, a: int, b: int, n: nat)
    requires n <= |row|
    ensures Mac(row, RampOf(a, b, |row|), n)
         == a * Mac(row, RampOf(1, 0, |row|), n) + b * Mac(row, RampOf(0, 1, |row|), n)
  {
    hide Times;
    if n > 0 {
      MacRamp(row, a, b, n - 1);
      var i := n - 1;
      assert RampOf(1, 0, |row|)[i] == 1 && RampOf(0, 1, |row|)[i] == i;
      RampTerm(a, b, i, row[i], Mac(row, RampOf(1, 0, |row|), i), Mac(row, RampOf(0, 1, |row|), i));
    }
  }

  lemma MacTerms(row: seq<int>, x: seq<int>)
    requires |row| == |x| == 24
    ensures Mac(row, x, 24)
         == x[0] * row[0] + x[1] * row[1] + x[2] * row[2] + x[3] * row[3] + x[4] * row[4] + x[5] * row[5]
            + x[6] * row[6] + x[7] * row[7] + x[8] * row[8] + x[9] * row[9] + x[10] * row[10] + x[11] * row[11]
            + x[12] * row[12] + x[13] * row[13] + x[14] * row[14] + x[15] * row[15] + x[16] * row[16]
            + x[17] * row[17] + x[18] * row[18] + x[19] * row[19] + x[20] * row[20] + x[21] * row[21]
            + x[22] * row[22] + x[23] * row[23]
  {
    assert Mac(row, x, 0) == 0;
    hide Mac;
    MacSix(row, x, 0);
    MacSix(row, x, 6);
    MacSix(row, x, 12);
    MacSix(row, x, 18);
  }

  lemma SumTerms(row: seq<int>)
    requires |row| == 24
    ensures Mac(row, RampOf(1, 0, 24), 24)
         == row[0] + row[1] + row[2] + row[3] + row[4] + row[5] + row[6] + row[7] + row[8] + row[9] + row[10]
            + row[11] + row[12] + row[13] + row[14] + row[15] + row[16] + row[17] + row[18] + row[19] + row[20]
            + row[21] + row[22] + row[23]
  {
    var x := RampOf(1, 0, 24);
    MacTerms(row, x);
    hide Mac, RampOf;
    assert forall i | 0 <= i < 24 :: x[i] == 1;
  }

  /** And with the coefficients' places. */
  lemma MomentTerms(row: seq<int>)
    requires |row| == 24
    ensures Mac(row, RampOf(0, 1, 24), 24)
         == row[1] + 2 * row[2] + 3 * row[3] + 4 * row[4] + 5 * row[5] + 6 * row[6] + 7 * row[7] + 8 * row[8]
            + 9 * row[9] + 10 * row[10] + 11 * row[11] + 12 * row[12] + 13 * row[13] + 14 * row[14] + 15 * row[15]
            + 16 * row[16] + 17 * row[17] + 18 * row[18] + 19 * row[19] + 20 * row[20] + 21 * row[21]
            + 22 * row[22] + 23 * row[23]
  {
    var x := RampOf(0, 1, 24);
    MacTerms(row, x);
    hide Mac, RampOf;
    assert forall i | 0 <= i < 24 :: x[i] == i;
  }

  lemma PhaseTerms(ratio: nat, p: nat)
    requires Ratio(ratio) && p < ratio
    ensures Mac(Row(ratio, p), RampOf(1, 0, 24), 24) == PhaseSum(ratio, p)
    ensures Mac(Row(ratio, p), RampOf(0, 1, 24), 24) == PhaseMoment(ratio, p)
  {
    hide Mac, RampOf;
    if ratio == 6 {
      if p < 3 {
        LowTerms8(p);
      } else {
        HighTerms8(p);
      }
    } else {
      Terms16(p);
    }
  }

  lemma LowTerms8(p: nat)
    requires p < 3
    ensures Mac(Row(6, p), RampOf(1, 0, 24), 24) == PhaseSum(6, p)
    ensures Mac(Row(6, p), RampOf(0, 1, 24), 24) == PhaseMoment(6, p)
  {
    hide Mac, RampOf;
    SumTerms(Row(6, p));
    MomentTerms(Row(6, p));
  }

  lemma HighTerms8(p: nat)
    requires 3 <= p < 6
    ensures Mac(Row(6, p), RampOf(1, 0, 24), 24) == PhaseSum(6, p)
    ensures Mac(Row(6, p), RampOf(0, 1, 24), 24) == PhaseMoment(6, p)
  {
    hide Mac, RampOf;
    SumTerms(Row(6, p));
    MomentTerms(Row(6, p));
  }

  lemma Terms16(p: nat)
    requires p < 3
    ensures Mac(Row(3, p), RampOf(1, 0, 24), 24) == PhaseSum(3, p)
    ensures Mac(Row(3, p), RampOf(0, 1, 24), 24) == PhaseMoment(3, p)
  {
    hide Mac, RampOf;
    SumTerms(Row(3, p));
    MomentTerms(Row(3, p));
  }

  /** What a ramp with first sample `v` in the window gives at phase `p`. */
  function Level(ratio: nat, v: int, b: int, p: nat): int
    requires Ratio(ratio) && p < ratio
  {
    (v * PhaseSum(ratio, p) + b * PhaseMoment(ratio, p)) / 0x1_0000
  }

  lemma RampWindow(a: int, b: int, n: nat, k: nat)
    requires k + 24 <= n
    ensures RampOf(a, b, n)[k..k + 24] == RampOf(a + b * k, b, 24)
  {
    var x := RampOf(a, b, n)[k..k + 24];
    forall i | 0 <= i < |x|
      ensures x[i] == a + b * k + b * i
    {
      assert b * (k + i) == b * k + b * i;
    }
  }

  lemma RampOutputs(ratio: nat, a: int, b: int, n: nat, k: nat, p: nat)
    requires Ratio(ratio) && n >= 23 && k < n - 23 && p < ratio && Within(RampOf(a, b, n), Limit(ratio))
    ensures 0 <= ratio * k + p < |Polyphase(ratio, RampOf(a, b, n))|
    ensures Polyphase(ratio, RampOf(a, b, n))[ratio * k + p] == Level(ratio, a + b * k, b, p)
  {
    hide Row, Polyphase, Mac, Limit, PhaseSum, PhaseMoment;
    var s := RampOf(a, b, n);
    ExactWithinLimit(ratio, s, k, p);
    RampWindow(a, b, n, k);
    MacRamp(Row(ratio, p), a + b * k, b, 24);
    PhaseTerms(ratio, p);
  }

  lemma RampOutputAt(ratio: nat, a: int, b: int, n: nat, j: nat)
    requires Ratio(ratio) && n >= 23 && Within(RampOf(a, b, n), Limit(ratio))
    requires j < |Polyphase(ratio, RampOf(a, b, n))|
    ensures j / ratio < n - 23 && j % ratio < ratio
    ensures Polyphase(ratio, RampOf(a, b, n))[j] == Level(ratio, a + b * (j / ratio), b, j % ratio)
  {
    hide Polyphase, Limit, Level;
    PhaseAt(ratio, RampOf(a, b, n), j);
    RampOutputs(ratio, a, b, n, j / ratio, j % ratio);
  }

  /** A constant input gives a nearly constant output: 31750 to 31760 parts in 65536 of it, at every
      phase. */
  lemma ConstantOutputs(ratio: nat, v: int, n: nat, j: nat)
    requires Ratio(ratio) && Abs(v) <= Limit(ratio) && n >= 23
    requires j < |Polyphase(ratio, RampOf(v, 0, n))|
    ensures var y, lo, hi := Polyphase(ratio, RampOf(v, 0, n))[j], v * 31750 / 0x1_0000, v * 31760 / 0x1_0000;
            if v >= 0 then lo <= y <= hi else hi <= y <= lo
  {
    hide Polyphase, Limit;
    RampOutputAt(ratio, v, 0, n, j);
    SumsBetween(ratio, j % ratio);
    Between(v, PhaseSum(ratio, j % ratio));
  }

  lemma Between(v: int, sum: nat)
    requires sum == 31750 || sum == 31753 || sum == 31760
    ensures var y, lo, hi := v * sum / 0x1_0000, v * 31750 / 0x1_0000, v * 31760 / 0x1_0000;
            if v >= 0 then lo <= y <= hi else hi <= y <= lo
  {
  }

  lemma SumsBetween(ratio: nat, p: nat)
    requires Ratio(ratio) && p < ratio
    ensures PhaseSum(ratio, p) == 31750 || PhaseSum(ratio, p) == 31753 || PhaseSum(ratio, p) == 31760
  {
  }

  lemma PhaseAt(ratio: nat, s: seq<int>, j: nat)
    requires Ratio(ratio) && |s| >= 23 && j < |Polyphase(ratio, s)|
    ensures j / ratio < |s| - 23 && j % ratio < ratio && ratio * (j / ratio) + j % ratio == j
  {
    PolyphaseLength(ratio, s);
    if ratio == 3 {
    } else {
    }
  }

  // ---------------------------------------------------------------------------------------------
  // Which ramps rise
  // ---------------------------------------------------------------------------------------------

  /** The outputs for every ramp of slope `b` within the level never fall. */
  ghost predicate AllRise(ratio: nat, b: nat)
    requires Ratio(ratio)
  {
    forall a: int, n: nat, j: nat |
      n >= 23 && Within(RampOf(a, b, n), Limit(ratio)) && j + 1 < |Polyphase(ratio, RampOf(a, b, n))| ::
      Polyphase(ratio, RampOf(a, b, n))[j] <= Polyphase(ratio, RampOf(a, b, n))[j + 1]
  }

  /** The least slope at which they do: 40 a sample at 8 kHz, 21 at 16 kHz. */
  function LeastSlope(ratio: nat): nat {
    if ratio == 6 then 40 else 21
  }

  /** From one phase to the next, and from the last one to the first of the next sample. */
  lemma LevelsRise(ratio: nat, v: int, b: nat, p: nat)
    requires Ratio(ratio) && p < ratio && b >= LeastSlope(ratio)
    requires Abs(v) <= Limit(ratio) && Abs(v + 23 * b) <= Limit(ratio)
    ensures p + 1 < ratio ==> Level(ratio, v, b, p) <= Level(ratio, v, b, p + 1)
    ensures p + 1 == ratio ==> Level(ratio, v, b, p) <= Level(ratio, v + b, b, 0)
  {
  }

  lemma RampRises(ratio: nat, a: int, b: nat, n: nat, j: nat)
    requires Ratio(ratio) && b >= LeastSlope(ratio) && n >= 23 && Within(RampOf(a, b, n), Limit(ratio))
    requires j + 1 < |Polyphase(ratio, RampOf(a, b, n))|
    ensures Polyphase(ratio, RampOf(a, b, n))[j] <= Polyphase(ratio, RampOf(a, b, n))[j + 1]
  {
    hide Polyphase, Level, LeastSlope;
    RampOutputAt(ratio, a, b, n, j);
    RampOutputAt(ratio, a, b, n, j + 1);
    NextPhase(ratio, j);
    var s, k := RampOf(a, b, n), j / ratio;
    assert Abs(s[k]) <= Limit(ratio) && Abs(s[k + 23]) <= Limit(ratio);
    SlopeSteps(a, b, k);
    hide Limit;
    LevelsRise(ratio, a + b * k, b, j % ratio);
  }

  lemma SlopeSteps(a: int, b: nat, k: nat)
    ensures a + b * k + 23 * b == a + b * (k + 23) && a + b * k + b == a + b * (k + 1)
  {
  }

  lemma NextPhase(ratio: nat, j: nat)
    requires Ratio(ratio)
    ensures var k, p := j / ratio, j % ratio;
            if p + 1 < ratio then (j + 1) / ratio == k && (j + 1) % ratio == p + 1
            else (j + 1) / ratio == k + 1 && (j + 1) % ratio == 0
  {
    if ratio == 3 {
    } else {
    }
  }

  /** A ramp of slope `b` that falls somewhere starts here. */
  function FallStart(ratio: nat, b: nat): int {
    if ratio == 6 then
      if b < 34 then -29835 else if b == 34 then -29834 else if b == 35 then -29833 else if b == 36 then -29830
      else if b == 37 then -29829 else if b == 38 then -29826 else -29825
    else if b < 17 || b == 18 then -30450 else if b == 17 then -30449 else if b == 19 then -30434 else -30429
  }

  lemma LevelFalls(ratio: nat, b: nat)
    requires Ratio(ratio) && b < LeastSlope(ratio)
    ensures var v, p := FallStart(ratio, b), if ratio == 6 then 1 else 0;
            Level(ratio, v, b, p) > Level(ratio, v, b, p + 1)
  {
  }

  /** Every ramp of a slope rises through all phases if and only if the slope is at least the least one. */
  lemma RampsRiseExactly(ratio: nat, b: nat)
    requires Ratio(ratio)
    ensures AllRise(ratio, b) <==> b >= LeastSlope(ratio)
  {
    hide Polyphase, Level;
    if b >= LeastSlope(ratio) {
      forall a: int, n: nat, j: nat |
        n >= 23 && Within(RampOf(a, b, n), Limit(ratio)) && j + 1 < |Polyphase(ratio, RampOf(a, b, n))|
        ensures Polyphase(ratio, RampOf(a, b, n))[j] <= Polyphase(ratio, RampOf(a, b, n))[j + 1]
      {
        RampRises(ratio, a, b, n, j);
      }
    } else {
      var a, p: nat := FallStart(ratio, b), if ratio == 6 then 1 else 0;
      LevelFalls(ratio, b);
      assert Within(RampOf(a, b, 24), Limit(ratio));
      RampOutputs(ratio, a, b, 24, 0, p);
      RampOutputs(ratio, a, b, 24, 0, p + 1);
    }
  }
}
