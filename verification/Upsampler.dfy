/** The streaming polyphase upsampler (`us_fir_run`): block by block with carried history, in 32-bit
    accumulators, from 8 or 16 kHz up to 48 kHz. */
module Upsampler {
  const COEF_NUM := 24
  const HISTORY := COEF_NUM - 1

  // ---------------------------------------------------------------------------------------------
  // The filter
  // ---------------------------------------------------------------------------------------------

  predicate Ratio(r: nat) {
    r == 3 || r == 6
  }

  const ROW8_0: seq<int> :=
    [64, -311, 210, -320, 363, -407, 410, -356, 196, 191, -1369, 30721,
     3861, -2265, 1680, -1321, 1049, -823, 625, -471, 297, -327, 34, 19]
  const ROW8_1: seq<int> :=
    [72, -254, 75, -117, 46, 58, -256, 583, -1141, 2197, -4866, 28131,
     10285, -4611, 2935, -2061, 1489, -1075, 755, -523, 310, -291, -19, 31]
  const ROW8_2: seq<int> :=
    [65, -175, -73, 84, -245, 457, -786, 1276, -2040, 3377, -6428, 23348,
     17094, -6200, 3592, -2347, 1588, -1073, 703, -447, 236, -203, -92, 49]
  const ROW8_3: seq<int> :=
    [49, -92, -203, 236, -447, 703, -1073, 1588, -2347, 3592, -6200, 17094,
     23348, -6428, 3377, -2040, 1276, -786, 457, -245, 84, -73, -175, 65]
  const ROW8_4: seq<int> :=
    [31, -19, -291, 310, -523, 755, -1075, 1489, -2061, 2935, -4611, 10285,
     28131, -4866, 2197, -1141, 583, -256, 58, 46, -117, 75, -254, 72]
  const ROW8_5: seq<int> :=
    [19, 34, -327, 297, -471, 625, -823, 1049, -1321, 1680, -2265, 3861,
     30721, -1369, 191, 196, -356, 410, -407, 363, -320, 210, -311, 64]
  const ROW16_0: seq<int> :=
    [1, -291, 248, -327, 383, -405, 362, -212, -129, 875, -2948, 29344,
     7324, -3795, 2603, -1913, 1418, -1031, 722, -478, 292, -220, -86, 16]
  const ROW16_1: seq<int> :=
    [26, -212, 6, 45, -185, 414, -764, 1290, -2099, 3470, -6431, 20320,
     20320, -6431, 3470, -2099, 1290, -764, 414, -185, 45, 6, -212, 26]
  const ROW16_2: seq<int> :=
    [16, -86, -220, 292, -478, 722, -1031, 1418, -1913, 2603, -3795, 7324,
     29344, -2948, 875, -129, -212, 362, -405, 383, -327, 248, -291, 1]

  /** `us_get_coef_para`: the coefficients of one phase. */
  function Row(ratio: nat, phase: nat): (row: seq<int>)
    requires Ratio(ratio) && phase < ratio
    ensures |row| == COEF_NUM
  {
    if ratio == 6 then
      if phase == 0 then ROW8_0 else if phase == 1 then ROW8_1 else if phase == 2 then ROW8_2
      else if phase == 3 then ROW8_3 else if phase == 4 then ROW8_4 else ROW8_5
    else if phase == 0 then ROW16_0
    else if phase == 1 then ROW16_1
    else ROW16_2
  }

  function Times(sample: int, coef: int): int {
    sample * coef
  }

  /** The exact sum of the first `n` products. */
  function Mac(row: seq<int>, x: seq<int>, n: nat): int
    requires n <= |row| && n <= |x|
  {
    if n == 0 then 0 else Mac(row, x, n - 1) + Times(x[n - 1], row[n - 1])
  }

  predicate Fits32(x: int) {
    -0x8000_0000 <= x < 0x8000_0000
  }

  /** The value a signed 32-bit word holds. */
  function Wrap32(x: int): (w: int)
    ensures Fits32(w)
  {
    (x + 0x8000_0000) % 0x1_0000_0000 - 0x8000_0000
  }

  lemma WrapAdd(a: int, b: int)
    ensures Wrap32(Wrap32(a) + b) == Wrap32(a + b)
  {
    var q := (a + 0x8000_0000) / 0x1_0000_0000;
    assert Wrap32(a) + b == a + b - q * 0x1_0000_0000;
    WrapPeriod(a + b, q);
  }

  lemma WrapPeriod(x: int, q: int)
    ensures Wrap32(x - q * 0x1_0000_0000) == Wrap32(x)
  {
    var y := x + 0x8000_0000;
    assert y == (y / 0x1_0000_0000) * 0x1_0000_0000 + y % 0x1_0000_0000;
    assert y - q * 0x1_0000_0000 == (y / 0x1_0000_0000 - q) * 0x1_0000_0000 + y % 0x1_0000_0000;
  }

  /** The high half of the accumulator: it is a 16-bit value. */
  function High(acc: int): (s: int)
    requires Fits32(acc)
    ensures -0x8000 <= s < 0x8000
  {
    acc / 0x1_0000
  }

  function Output(row: seq<int>, x: seq<int>): int
    requires |row| == COEF_NUM == |x|
  {
    High(Wrap32(Mac(row, x, COEF_NUM)))
  }

  /** One output for every phase. */
  function Phases(ratio: nat, x: seq<int>, n: nat): (y: seq<int>)
    requires Ratio(ratio) && n <= ratio && |x| == COEF_NUM
    ensures |y| == n && forall p | 0 <= p < n :: y[p] == Output(Row(ratio, p), x)
  {
    if n == 0 then [] else Phases(ratio, x, n - 1) + [Output(Row(ratio, n - 1), x)]
  }

  /** The whole-stream convolution: every 24 neighbouring samples of `s` give one output a phase. */
  function Polyphase(ratio: nat, s: seq<int>): (y: seq<int>)
    requires Ratio(ratio) && |s| >= HISTORY
  {
    if |s| == HISTORY then []
    else Polyphase(ratio, s[..|s| - 1]) + Phases(ratio, s[|s| - COEF_NUM..], ratio)
  }

  lemma {:induction false} PolyphaseLength(ratio: nat, s: seq<int>)
    requires Ratio(ratio) && |s| >= HISTORY
    ensures |Polyphase(ratio, s)| == ratio * (|s| - HISTORY)
  {
    hide Phases, Ratio;
    if |s| > HISTORY {
      PolyphaseLength(ratio, s[..|s| - 1]);
      assert ratio * (|s| - 1 - HISTORY) + ratio == ratio * (|s| - HISTORY);
    }
  }

  lemma PolyphaseStart(ratio: nat, s: seq<int>)
    requires Ratio(ratio) && |s| >= HISTORY
    ensures Polyphase(ratio, s[..HISTORY]) == [] && s[..HISTORY + (|s| - HISTORY)] == s
  {
  }

  lemma PolyphaseStep(ratio: nat, s: seq<int>, i: nat)
    requires Ratio(ratio) && HISTORY + i < |s|
    ensures Polyphase(ratio, s[..HISTORY + i + 1])
            == Polyphase(ratio, s[..HISTORY + i]) + Phases(ratio, s[i..i + COEF_NUM], ratio)
    ensures |Phases(ratio, s[i..i + COEF_NUM], ratio)| == ratio
  {
    assert s[..HISTORY + i + 1][..HISTORY + i] == s[..HISTORY + i];
    assert s[..HISTORY + i + 1][i..] == s[i..i + COEF_NUM];
  }

  // ---------------------------------------------------------------------------------------------
  // The blocks
  // ---------------------------------------------------------------------------------------------

  function Last(s: seq<int>): (h: seq<int>)
    requires |s| >= HISTORY
    ensures |h| == HISTORY
  {
    s[|s| - HISTORY..]
  }

  class Fir {
    const ratio: nat
    const usParaLst: array<int>

    ghost predicate Valid() {
      Ratio(ratio) && usParaLst.Length == HISTORY
    }

    /** `us_fir_init`. */
    constructor (r: nat)
      requires Ratio(r)
      ensures Valid() && ratio == r && fresh(usParaLst) && usParaLst[..] == seq(HISTORY, _ => 0)
    {
      ratio := r;
      usParaLst := new int[HISTORY](_ => 0);
    }

    /** The accumulation of one output. */
    method Accumulate(src: seq<int>, inIdx: nat, sampIdx: nat) returns (y: int)
      requires Valid() && inIdx < |src| && sampIdx < ratio
      ensures y == Output(Row(ratio, sampIdx), (usParaLst[..] + src)[inIdx..inIdx + COEF_NUM])
    {
      ghost var x := (usParaLst[..] + src)[inIdx..inIdx + COEF_NUM];
      var row := Row(ratio, sampIdx);
      var acc, coefIdx := 0, 0;
      while coefIdx < COEF_NUM
        invariant 0 <= coefIdx <= COEF_NUM
        invariant acc == Wrap32(Mac(row, x, coefIdx))
      {
        var realIdx := coefIdx + inIdx;
        var para := if realIdx < HISTORY then usParaLst[realIdx] else src[realIdx - HISTORY];
        assert para == x[coefIdx];
        WrapAdd(Mac(row, x, coefIdx), Times(para, row[coefIdx]));
        acc := Wrap32(acc + Times(para, row[coefIdx]));
        coefIdx := coefIdx + 1;
      }
      y := High(acc);
    }

    /** All outputs of one sample. */
    method Interpolate(src: seq<int>, dst: array<int>, inIdx: nat, outIdx: nat)
      requires Valid() && inIdx < |src| && dst != usParaLst && outIdx + ratio <= dst.Length
      modifies dst
      ensures dst[..] == old(dst[..outIdx]) + Phases(ratio, (usParaLst[..] + src)[inIdx..inIdx + COEF_NUM], ratio)
                         + old(dst[outIdx + ratio..])
    {
      hide Output, Row;
      ghost var x := (usParaLst[..] + src)[inIdx..inIdx + COEF_NUM];
      var sampIdx := 0;
      while sampIdx < ratio
        invariant 0 <= sampIdx <= ratio
        invariant forall k | 0 <= k < dst.Length && !(outIdx <= k < outIdx + sampIdx) :: dst[k] == old(dst[k])
        invariant forall k | 0 <= k < sampIdx :: dst[outIdx + k] == Output(Row(ratio, k), x)
      {
        var y := Accumulate(src, inIdx, sampIdx);
        dst[outIdx + sampIdx] := y;
        sampIdx := sampIdx + 1;
      }
      Written(old(dst[..]), dst[..], outIdx, ratio, x);
    }

    /** The history moves on by a block: both branches leave the last 23 samples. */
    method KeepHistory(src: seq<int>)
      requires Valid()
      modifies usParaLst
      ensures usParaLst[..] == Last(old(usParaLst[..]) + src)
    {
      if |src| >= HISTORY {
        TakeBlock(src);
      } else {
        ShiftIn(src);
      }
    }

    /** A block long enough for a whole history. */
    method TakeBlock(src: seq<int>)
      requires Valid() && |src| >= HISTORY
      modifies usParaLst
      ensures usParaLst[..] == src[|src| - HISTORY..]
    {
      var n, i := |src|, 0;
      while i < HISTORY
        invariant 0 <= i <= HISTORY
        invariant forall k | 0 <= k < i :: usParaLst[k] == src[n - HISTORY + k]
      {
        usParaLst[i] := src[n - COEF_NUM + 1 + i];
        i := i + 1;
      }
    }

    /** A shorter one goes behind what is left of the old history. */
    method ShiftIn(src: seq<int>)
      requires Valid() && |src| < HISTORY
      modifies usParaLst
      ensures usParaLst[..] == old(usParaLst[..])[|src|..] + src
    {
      var n, startIdx, i := |src|, HISTORY - |src|, 0;
      while i < startIdx
        invariant 0 <= i <= startIdx
        invariant forall k | 0 <= k < i :: usParaLst[k] == old(usParaLst[k + n])
        invariant forall k | i <= k < HISTORY :: usParaLst[k] == old(usParaLst[k])
      {
        usParaLst[i] := usParaLst[i + n];
        i := i + 1;
      }
      i := 0;
      while i < n
        invariant 0 <= i <= n
        invariant forall k | 0 <= k < startIdx :: usParaLst[k] == old(usParaLst[k + n])
        invariant forall k | 0 <= k < i :: usParaLst[startIdx + k] == src[k]
      {
        usParaLst[startIdx + i] := src[i];
        i := i + 1;
      }
    }

    /** The two outer loops. */
    method Filter(src: seq<int>, dst: array<int>) returns (outIdx: nat)
      requires Valid() && dst != usParaLst && dst.Length >= ratio * |src|
      modifies dst
      ensures outIdx == ratio * |src|
      ensures dst[..] == Polyphase(ratio, usParaLst[..] + src) + old(dst[..])[outIdx..]
    {
      hide Phases, Polyphase;
      ghost var s, start := usParaLst[..] + src, dst[..];
      PolyphaseStart(ratio, s);
      var inIdx := 0;
      outIdx := 0;
      while inIdx < |src|
        invariant 0 <= inIdx <= |src| && outIdx == ratio * inIdx <= dst.Length
        invariant dst[..] == Polyphase(ratio, s[..HISTORY + inIdx]) + start[outIdx..]
        invariant |Polyphase(ratio, s[..HISTORY + inIdx])| == outIdx
      {
        PolyphaseStep(ratio, s, inIdx);
        Bounded(ratio, inIdx, |src|);
        Interpolate(src, dst, inIdx, outIdx);
        outIdx := outIdx + ratio;
        inIdx := inIdx + 1;
      }
    }

    /** `us_fir_run`. */
    method Run(src: seq<int>, dst: array<int>) returns (outIdx: nat)
      requires Valid() && dst != usParaLst && dst.Length >= ratio * |src|
      modifies usParaLst, dst
      ensures outIdx == ratio * |src|
      ensures dst[..] == Polyphase(ratio, old(usParaLst[..]) + src) + old(dst[..])[outIdx..]
      ensures usParaLst[..] == Last(old(usParaLst[..]) + src)
    {
      hide Polyphase, Last;
      outIdx := Filter(src, dst);
      KeepHistory(src);
    }
  }

  lemma Written(before: seq<int>, after: seq<int>, at: nat, ratio: nat, x: seq<int>)
    requires Ratio(ratio) && |x| == COEF_NUM && at + ratio <= |before| == |after|
    requires forall k | 0 <= k < |before| && !(at <= k < at + ratio) :: after[k] == before[k]
    requires forall p | 0 <= p < ratio :: after[at + p] == Output(Row(ratio, p), x)
    ensures after == before[..at] + Phases(ratio, x, ratio) + before[at + ratio..]
  {
    hide Output, Row;
    var y := Phases(ratio, x, ratio);
    forall k | at <= k < at + ratio
      ensures after[k] == y[k - at]
    {
      assert after[at + (k - at)] == Output(Row(ratio, k - at), x);
    }
  }

  lemma Bounded(ratio: nat, i: nat, n: nat)
    requires i < n
    ensures ratio * i + ratio <= ratio * n
  {
    assert ratio * (n - i - 1) >= 0;
  }

  lemma LastOf(s: seq<int>, b: seq<int>)
    requires |s| >= HISTORY && b != []
    ensures (s + b)[..|s + b| - 1] == s + b[..|b| - 1]
    ensures var tail := Last(s) + b;
            && tail[..|tail| - 1] == Last(s) + b[..|b| - 1]
            && tail[|tail| - COEF_NUM..] == (s + b)[|s + b| - COEF_NUM..]
  {
  }

  lemma {:induction false} PolyphaseSplit(ratio: nat, s: seq<int>, b: seq<int>)
    requires Ratio(ratio) && |s| >= HISTORY
    ensures Polyphase(ratio, s + b) == Polyphase(ratio, s) + Polyphase(ratio, Last(s) + b)
    decreases |b|
  {
    hide Phases, Last;
    if b == [] {
      assert s + b == s && Last(s) + b == Last(s);
    } else {
      PolyphaseSplit(ratio, s, b[..|b| - 1]);
      LastOf(s, b);
    }
  }

  lemma LastLast(a: seq<int>, b: seq<int>)
    requires |a| >= HISTORY
    ensures Last(Last(a) + b) == Last(a + b)
  {
  }

  ghost function Joined(blocks: seq<seq<int>>): seq<int> {
    if blocks == [] then [] else Joined(blocks[..|blocks| - 1]) + blocks[|blocks| - 1]
  }

  /** What `Run` makes of one block after another: all outputs, and the history left behind. */
  ghost function Stream(ratio: nat, h: seq<int>, blocks: seq<seq<int>>): (r: (seq<int>, seq<int>))
    requires Ratio(ratio) && |h| == HISTORY
    ensures |r.1| == HISTORY
  {
    if blocks == [] then ([], h)
    else
      var (out, hist) := Stream(ratio, h, blocks[..|blocks| - 1]);
      var b := blocks[|blocks| - 1];
      (out + Polyphase(ratio, hist + b), Last(hist + b))
  }

  lemma NextBlock(ratio: nat, h: seq<int>, before: seq<int>, b: seq<int>)
    requires Ratio(ratio) && |h| == HISTORY
    ensures Polyphase(ratio, h + (before + b)) == Polyphase(ratio, h + before) + Polyphase(ratio, Last(h + before) + b)
    ensures Last(h + (before + b)) == Last(Last(h + before) + b)
  {
    hide Polyphase;
    assert h + (before + b) == h + before + b;
    PolyphaseSplit(ratio, h + before, b);
    LastLast(h + before, b);
  }

  /** Chunk invariance: however the input is cut into blocks, of any sizes, the outputs are the
      convolution of the whole and the history is its end. */
  lemma {:induction false} ChunkInvariance(ratio: nat, h: seq<int>, blocks: seq<seq<int>>)
    requires Ratio(ratio) && |h| == HISTORY
    ensures Stream(ratio, h, blocks) == (Polyphase(ratio, h + Joined(blocks)), Last(h + Joined(blocks)))
  {
    if blocks == [] {
      assert h + Joined(blocks) == h;
    } else {
      hide Polyphase, Last;
      ChunkInvariance(ratio, h, blocks[..|blocks| - 1]);
      NextBlock(ratio, h, Joined(blocks[..|blocks| - 1]), blocks[|blocks| - 1]);
    }
  }

  // ---------------------------------------------------------------------------------------------
  // Polyphase form and direct form
  // ---------------------------------------------------------------------------------------------

  /** Output `p` of sample `k`. */
  lemma {:induction false} PolyphaseAt(ratio: nat, s: seq<int>, k: nat, p: nat)
    requires Ratio(ratio) && |s| >= HISTORY && k < |s| - HISTORY && p < ratio
    ensures 0 <= ratio * k + p < |Polyphase(ratio, s)|
    ensures Polyphase(ratio, s)[ratio * k + p] == Output(Row(ratio, p), s[k..k + COEF_NUM])
    decreases |s|
  {
    hide Output, Row;
    var t := s[..|s| - 1];
    PolyphaseLength(ratio, t);
    PolyphaseLength(ratio, s);
    if k == |s| - COEF_NUM {
      assert s[|s| - COEF_NUM..] == s[k..k + COEF_NUM];
    } else {
      PolyphaseAt(ratio, t, k, p);
      assert t[k..k + COEF_NUM] == s[k..k + COEF_NUM];
    }
  }

  /** The prototype low-pass filter the phases are taken from. */
  function Prototype(ratio: nat, j: nat): int
    requires Ratio(ratio) && j / ratio < COEF_NUM
  {
    Row(ratio, j % ratio)[COEF_NUM - 1 - j / ratio]
  }

  /** The input with `ratio - 1` zeros put behind every sample. */
  function Stuffed(ratio: nat, s: seq<int>, m: int): int
    requires Ratio(ratio)
  {
    if m % ratio == 0 && 0 <= m / ratio < |s| then s[m / ratio] else 0
  }

  /** The first `j` taps of the prototype, run over the stuffed input up to position `n`. */
  function Direct(ratio: nat, s: seq<int>, n: nat, j: nat): int
    requires Ratio(ratio) && j <= ratio * COEF_NUM
  {
    if j == 0 then 0
    else
      TapInRange(ratio, j - 1);
      Direct(ratio, s, n, j - 1) + Times(Stuffed(ratio, s, n - (j - 1)), Prototype(ratio, j - 1))
  }

  lemma TapInRange(ratio: nat, j: nat)
    requires Ratio(ratio) && j < ratio * COEF_NUM
    ensures j / ratio < COEF_NUM
  {
    if ratio == 3 {
    } else {
    }
  }

  lemma StuffedAt(ratio: nat, s: seq<int>, q: nat, d: int)
    requires Ratio(ratio) && q < |s| && 0 < d + ratio && d < ratio
    ensures Stuffed(ratio, s, ratio * q + d) == if d == 0 then s[q] else 0
  {
    if ratio == 3 {
    } else {
    }
  }

  lemma PrototypeAt(ratio: nat, c: nat, r: nat)
    requires Ratio(ratio) && c < COEF_NUM && r < ratio
    ensures (ratio * c + r) / ratio == c && Prototype(ratio, ratio * c + r) == Row(ratio, r)[COEF_NUM - 1 - c]
  {
    hide Row;
    if ratio == 3 {
    } else {
    }
  }

  /** Of the taps `ratio * c` to `ratio * c + r` only the one of phase `p` meets a sample. */
  lemma {:induction false} TapGroup(ratio: nat, s: seq<int>, k: nat, p: nat, c: nat, r: nat)
    requires Ratio(ratio) && k + COEF_NUM <= |s| && p < ratio && c < COEF_NUM && r <= ratio
    ensures ratio * c + r <= ratio * COEF_NUM
    ensures var (n, i) := (ratio * (k + HISTORY) + p, HISTORY - c);
            Direct(ratio, s, n, ratio * c + r)
            == Direct(ratio, s, n, ratio * c) + if r > p then Times(s[k + i], Row(ratio, p)[i]) else 0
  {
    hide Row, Stuffed, Prototype;
    if r > 0 {
      TapGroup(ratio, s, k, p, c, r - 1);
      PrototypeAt(ratio, c, r - 1);
      StuffedAt(ratio, s, k + HISTORY - c, p - (r - 1));
      assert ratio * (k + HISTORY) + p - (ratio * c + r - 1) == ratio * (k + HISTORY - c) + (p - (r - 1));
    }
  }

  lemma {:induction false} DirectIsMac(ratio: nat, s: seq<int>, k: nat, p: nat, c: nat)
    requires Ratio(ratio) && k + COEF_NUM <= |s| && p < ratio && c <= COEF_NUM && ratio * c <= ratio * COEF_NUM
    ensures var (row, x) := (Row(ratio, p), s[k..k + COEF_NUM]);
            Direct(ratio, s, ratio * (k + HISTORY) + p, ratio * c) == Mac(row, x, COEF_NUM) - Mac(row, x, COEF_NUM - c)
  {
    hide Row, Stuffed, Prototype;
    if c > 0 {
      assert ratio * c == ratio * (c - 1) + ratio;
      DirectIsMac(ratio, s, k, p, c - 1);
      TapGroup(ratio, s, k, p, c - 1, ratio);
    }
  }

  /** The polyphase form is the direct one: stuff zeros between the samples, run the prototype filter
      over everything, and every output of `Run` is what the filter gives there. */
  lemma PolyphaseIsDirect(ratio: nat, s: seq<int>, k: nat, p: nat)
    requires Ratio(ratio) && |s| >= HISTORY && k < |s| - HISTORY && p < ratio
    ensures 0 <= ratio * k + p < |Polyphase(ratio, s)|
    ensures Polyphase(ratio, s)[ratio * k + p]
            == High(Wrap32(Direct(ratio, s, ratio * (k + HISTORY) + p, ratio * COEF_NUM)))
  {
    hide Row, Polyphase, Direct;
    PolyphaseAt(ratio, s, k, p);
    DirectIsMac(ratio, s, k, p, COEF_NUM);
  }

  // ---------------------------------------------------------------------------------------------
  // The arithmetic bound
  // ---------------------------------------------------------------------------------------------

  function Abs(x: int): nat {
    if x < 0 then -x else x
  }

  function AbsSum(row: seq<int>, n: nat): nat
    requires n <= |row|
  {
    if n == 0 then 0 else AbsSum(row, n - 1) + Abs(row[n - 1])
  }

  ghost predicate Within(x: seq<int>, bound: nat) {
    forall i | 0 <= i < |x| :: Abs(x[i]) <= bound
  }

  lemma TimesBound(x: int, c: int, bound: nat)
    requires Abs(x) <= bound
    ensures Abs(Times(x, c)) <= bound * Abs(c)
  {
    TimesAbs(x, c);
    assert (bound - Abs(x)) * Abs(c) >= 0;
  }

  lemma TimesAbs(x: int, c: int)
    ensures Abs(Times(x, c)) == Abs(x) * Abs(c)
  {
    if x < 0 {
      assert (-x) * c == -(x * c) && (-x) * (-c) == x * c;
    } else {
      assert x * (-c) == -(x * c);
    }
  }

  lemma {:induction false} MacBound(row: seq<int>, x: seq<int>, bound: nat, n: nat)
    requires n <= |row| && n <= |x| && Within(x, bound)
    ensures Abs(Mac(row, x, n)) <= bound * AbsSum(row, n)
  {
    if n > 0 {
      MacBound(row, x, bound, n - 1);
      TimesBound(x[n - 1], row[n - 1], bound);
      assert bound * (AbsSum(row, n - 1) + Abs(row[n - 1])) == bound * AbsSum(row, n - 1) + bound * Abs(row[n - 1]);
    }
  }

  lemma {:induction false} AbsSumGrows(row: seq<int>, n: nat)
    requires n <= |row|
    ensures AbsSum(row, n) <= AbsSum(row, |row|)
    decreases |row| - n
  {
    if n < |row| {
      AbsSumGrows(row, n + 1);
    }
  }

  lemma SixMore(row: seq<int>, n: nat)
    requires n + 6 <= |row|
    ensures AbsSum(row, n + 6) == AbsSum(row, n) + Abs(row[n]) + Abs(row[n + 1]) + Abs(row[n + 2])
                                  + Abs(row[n + 3]) + Abs(row[n + 4]) + Abs(row[n + 5])
  {
    hide Abs;
    assert AbsSum(row, n + 2) == AbsSum(row, n) + Abs(row[n]) + Abs(row[n + 1]);
    assert AbsSum(row, n + 4) == AbsSum(row, n + 2) + Abs(row[n + 2]) + Abs(row[n + 3]);
  }

  lemma AllTerms(row: seq<int>)
    requires |row| == COEF_NUM
    ensures AbsSum(row, COEF_NUM)
            == Abs(row[0]) + Abs(row[1]) + Abs(row[2]) + Abs(row[3]) + Abs(row[4]) + Abs(row[5])
               + Abs(row[6]) + Abs(row[7]) + Abs(row[8]) + Abs(row[9]) + Abs(row[10]) + Abs(row[11])
               + Abs(row[12]) + Abs(row[13]) + Abs(row[14]) + Abs(row[15]) + Abs(row[16]) + Abs(row[17])
               + Abs(row[18]) + Abs(row[19]) + Abs(row[20]) + Abs(row[21]) + Abs(row[22]) + Abs(row[23])
  {
    hide Abs;
    assert AbsSum(row, 0) == 0;
    SixMore(row, 0);
    SixMore(row, 6);
    SixMore(row, 12);
    SixMore(row, 18);
  }

  lemma Sum8_0()
    ensures AbsSum(ROW8_0, COEF_NUM) == 47690
  {
    hide AbsSum;
    AllTerms(ROW8_0);
  }

  lemma Sum8_1()
    ensures AbsSum(ROW8_1, COEF_NUM) == 62181
  {
    hide AbsSum;
    AllTerms(ROW8_1);
  }

  lemma Sum8_2()
    ensures AbsSum(ROW8_2, COEF_NUM) == 71978
  {
    hide AbsSum;
    AllTerms(ROW8_2);
  }

  lemma Sum8_3()
    ensures AbsSum(ROW8_3, COEF_NUM) == 71978
  {
    hide AbsSum;
    AllTerms(ROW8_3);
  }

  lemma Sum8_4()
    ensures AbsSum(ROW8_4, COEF_NUM) == 62181
  {
    hide AbsSum;
    AllTerms(ROW8_4);
  }

  lemma Sum8_5()
    ensures AbsSum(ROW8_5, COEF_NUM) == 47690
  {
    hide AbsSum;
    AllTerms(ROW8_5);
  }

  lemma Sum16_0()
    ensures AbsSum(ROW16_0, COEF_NUM) == 55423
  {
    hide AbsSum;
    AllTerms(ROW16_0);
  }

  lemma Sum16_1()
    ensures AbsSum(ROW16_1, COEF_NUM) == 70524
  {
    hide AbsSum;
    AllTerms(ROW16_1);
  }

  lemma Sum16_2()
    ensures AbsSum(ROW16_2, COEF_NUM) == 55423
  {
    hide AbsSum;
    AllTerms(ROW16_2);
  }

  /** The largest sum of absolute coefficients in a table. */
  function Gain(ratio: nat): nat {
    if ratio == 6 then 71978 else 70524
  }

  lemma RowGain(ratio: nat, p: nat)
    requires Ratio(ratio) && p < ratio
    ensures AbsSum(Row(ratio, p), COEF_NUM) <= Gain(ratio)
    ensures p == ratio / 3 || p == ratio / 2 ==> AbsSum(Row(ratio, p), COEF_NUM) == Gain(ratio)
  {
    hide AbsSum, Abs;
    if ratio == 6 {
      Sum8_0();
      Sum8_1();
      Sum8_2();
      Sum8_3();
      Sum8_4();
      Sum8_5();
    } else {
      Sum16_0();
      Sum16_1();
      Sum16_2();
    }
  }

  /** The largest sample magnitude the accumulators take. */
  function Limit(ratio: nat): nat {
    if ratio == 6 then 29835 else 30450
  }

  /** The samples that drive the accumulator of `row` furthest. */
  function Worst(row: seq<int>, bound: int): (x: seq<int>)
    ensures |x| == |row| && forall i | 0 <= i < |row| :: x[i] == if row[i] < 0 then -bound else bound
  {
    seq(|row|, i requires 0 <= i < |row| => if row[i] < 0 then -bound else bound)
  }

  lemma {:induction false} WorstMac(row: seq<int>, bound: nat, n: nat)
    requires n <= |row|
    ensures Mac(row, Worst(row, bound), n) == bound * AbsSum(row, n)
  {
    if n > 0 {
      WorstMac(row, bound, n - 1);
      var c := row[n - 1];
      assert Times(Worst(row, bound)[n - 1], c) == bound * Abs(c);
      assert bound * (AbsSum(row, n - 1) + Abs(c)) == bound * AbsSum(row, n - 1) + bound * Abs(c);
    }
  }

  /** For every phase and every input within the bound, no partial accumulator leaves 32 bits. */
  ghost predicate AllFit(ratio: nat, bound: nat)
    requires Ratio(ratio)
  {
    forall x: seq<int>, p: nat, n: nat | |x| == COEF_NUM && Within(x, bound) && p < ratio && n <= COEF_NUM ::
      Fits32(Mac(Row(ratio, p), x, n))
  }

  lemma ProductsOrdered(a: nat, b: nat, c: nat, d: nat)
    requires a <= b && c <= d
    ensures a * c <= b * d
  {
    assert (b - a) * c >= 0 && b * (d - c) >= 0;
  }

  lemma FitsWithin(ratio: nat, bound: nat, x: seq<int>, p: nat, n: nat)
    requires Ratio(ratio) && bound <= Limit(ratio)
    requires |x| == COEF_NUM && Within(x, bound) && p < ratio && n <= COEF_NUM
    ensures Fits32(Mac(Row(ratio, p), x, n))
  {
    hide Row, Within, Mac, AbsSum;
    var row := Row(ratio, p);
    MacBound(row, x, bound, n);
    AbsSumGrows(row, n);
    RowGain(ratio, p);
    ProductsOrdered(bound, Limit(ratio), AbsSum(row, n), Gain(ratio));
  }

  /** The arithmetic bound, and it is tight: 29835 for 8 kHz input, 30450 for 16 kHz. */
  lemma AccumulatorsFitExactly(ratio: nat, bound: nat)
    requires Ratio(ratio)
    ensures AllFit(ratio, bound) <==> bound <= Limit(ratio)
  {
    if bound <= Limit(ratio) {
      forall x: seq<int>, p: nat, n: nat | |x| == COEF_NUM && Within(x, bound) && p < ratio && n <= COEF_NUM
        ensures Fits32(Mac(Row(ratio, p), x, n))
      {
        FitsWithin(ratio, bound, x, p, n);
      }
    } else {
      hide Row, Mac, AbsSum;
      var p := ratio / 3;
      var row := Row(ratio, p);
      RowGain(ratio, p);
      WorstMac(row, bound, COEF_NUM);
      assert bound * Gain(ratio) >= (Limit(ratio) + 1) * Gain(ratio) by {
        assert (bound - Limit(ratio) - 1) * Gain(ratio) >= 0;
      }
      assert Within(Worst(row, bound), bound);
    }
  }

  /** Within the bound the outputs are those of exact arithmetic. */
  lemma ExactWithinLimit(ratio: nat, s: seq<int>, k: nat, p: nat)
    requires Ratio(ratio) && |s| >= HISTORY && k < |s| - HISTORY && p < ratio && Within(s, Limit(ratio))
    ensures 0 <= ratio * k + p < |Polyphase(ratio, s)|
    ensures Polyphase(ratio, s)[ratio * k + p] == Mac(Row(ratio, p), s[k..k + COEF_NUM], COEF_NUM) / 0x1_0000
  {
    hide Row, Polyphase;
    var x := s[k..k + COEF_NUM];
    PolyphaseAt(ratio, s, k, p);
    assert Within(x, Limit(ratio));
    FitsWithin(ratio, Limit(ratio), x, p, COEF_NUM);
  }
}
