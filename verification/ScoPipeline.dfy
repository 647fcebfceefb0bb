/** The two-core SCO pipeline (`bt_sco_chain_cp.c`): the MCU trades one frame of input for the result of
    the frame before, the CP runs the speech algorithm on it in between. One state word decides whose
    turn it is. The algorithm is any function of all blocks it has seen. */
module ScoPipeline {
  import opened Helpers

  const FRAME_LEN_MAX := 256
  const CHANNEL_NUM_MAX := 2
  const PCM_MAX := FRAME_LEN_MAX * CHANNEL_NUM_MAX

  datatype CpState = NONE | IDLE | WORKING

  /** What the algorithm works on: a frame of all channels, and a reference. */
  datatype Block = Block(pcm: seq<int>, ref: seq<int>)

  datatype Config = Config(frameLen: nat, channelNum: nat) {
    predicate Valid() {
      frameLen <= FRAME_LEN_MAX && 1 <= channelNum <= CHANNEL_NUM_MAX && PcmLen() <= PCM_MAX
    }

    function PcmLen(): nat {
      frameLen * channelNum
    }
  }

  /** The statics both cores use. */
  datatype Shared = Shared(cp: CpState, inBuf: seq<int>, outBuf: seq<int>, refBuf: seq<int>, pcmLen: nat,
                           require: nat, run: nat) {
    predicate Valid() {
      |inBuf| == PCM_MAX && |outBuf| == PCM_MAX && |refBuf| == FRAME_LEN_MAX && pcmLen <= PCM_MAX
    }
  }

  function Overwrite(buf: seq<int>, data: seq<int>): (r: seq<int>)
    requires |data| <= |buf|
    ensures |r| == |buf| && r[..|data|] == data && r[|data|..] == buf[|data|..]
  {
    data + buf[|data|..]
  }

  // ---------------------------------------------------------------------------------------------
  // The steps of the two cores
  // ---------------------------------------------------------------------------------------------

  datatype McuPc = MIdle | MWait | MIn | MRef | MOut | MLen | MCount | MWork | MSend
  datatype CpPc = CIdle | CAlgo | CBack | CRun | CDone

  /** `seen` is the algorithm's memory; `fed` and `outs` record what the MCU has put in and got back. */
  datatype State = State(sh: Shared, mcu: McuPc, pcm: seq<int>, ref: Option<seq<int>>, sent: bool, core: CpPc,
                         seen: seq<Block>, fed: seq<Block>, outs: seq<seq<int>>)

  datatype Step = Call(pcm: seq<int>, ref: Option<seq<int>>) | Mcu | Cp

  type Algo = seq<Block> -> seq<int>

  ghost predicate Fits(algo: Algo) {
    forall blocks: seq<Block> :: |algo(blocks)| <= PCM_MAX
  }

  predicate Legal(c: Config, pcm: seq<int>, ref: Option<seq<int>>) {
    |pcm| == c.PcmLen() && (ref.Some? ==> |ref.value| == c.frameLen)
  }

  function StartState(c: Config): State
    requires c.Valid()
  {
    State(Shared(IDLE, Repeat(0, PCM_MAX), Repeat(0, PCM_MAX), Repeat(0, FRAME_LEN_MAX), c.frameLen, 0, 0),
          MIdle, [], None, false, CIdle, [], [], [])
  }

  function NewRef(c: Config, sh: Shared, ref: Option<seq<int>>): (r: seq<int>)
    requires c.Valid() && sh.Valid() && (ref.Some? ==> |ref.value| == c.frameLen)
    ensures |r| == FRAME_LEN_MAX
  {
    if ref.Some? then Overwrite(sh.refBuf, ref.value) else sh.refBuf
  }

  /** One step of `sco_cp_process`. */
  function McuStep(c: Config, s: State): (t: State)
    requires c.Valid() && s.sh.Valid() && (s.mcu != MIdle ==> Legal(c, s.pcm, s.ref))
    ensures t.sh.Valid() && t.pcm == s.pcm && t.ref == s.ref
  {
    var sh := s.sh;
    match s.mcu
    case MIdle => s
    case MWait => if sh.cp == WORKING then s else if sh.cp == IDLE then s.(mcu := MIn) else s.(mcu := MIdle)
    case MIn => s.(sh := sh.(inBuf := Overwrite(sh.inBuf, s.pcm)), mcu := MRef)
    case MRef =>
      var refBuf := NewRef(c, sh, s.ref);
      s.(sh := sh.(refBuf := refBuf), fed := s.fed + [Block(s.pcm, refBuf[..c.frameLen])], mcu := MOut)
    case MOut => s.(outs := s.outs + [sh.outBuf[..sh.pcmLen]], mcu := MLen)
    case MLen => s.(sh := sh.(pcmLen := |s.pcm|), mcu := MCount)
    case MCount => s.(sh := sh.(require := sh.require + 1), mcu := MWork)
    case MWork => s.(sh := sh.(cp := WORKING), mcu := MSend)
    case MSend => s.(sent := true, mcu := MIdle)
  }

  /** One step of `sco_cp_main`. */
  function CpStep(c: Config, algo: Algo, s: State): State
    requires c.Valid() && s.sh.Valid() && |algo(s.seen + [Heard(c, s.sh)])| <= PCM_MAX
  {
    var sh := s.sh;
    match s.core
    case CIdle => if s.sent then s.(sent := false, core := CAlgo) else s
    case CAlgo =>
      var seen := s.seen + [Heard(c, sh)];
      var out := algo(seen);
      s.(sh := sh.(inBuf := Overwrite(sh.inBuf, out), pcmLen := |out|), seen := seen, core := CBack)
    case CBack => s.(sh := sh.(outBuf := Overwrite(sh.outBuf, sh.inBuf[..sh.pcmLen])), core := CRun)
    case CRun => s.(sh := sh.(run := sh.run + 1), core := CDone)
    case CDone => s.(sh := sh.(cp := IDLE), core := CIdle)
  }

  /** The block the algorithm finds in the buffers. */
  function Heard(c: Config, sh: Shared): Block
    requires c.Valid() && sh.Valid()
  {
    Block(sh.inBuf[..sh.pcmLen], sh.refBuf[..c.frameLen])
  }

  // ---------------------------------------------------------------------------------------------
  // The invariant
  // ---------------------------------------------------------------------------------------------

  /** Who may be where, by the state word: with IDLE the CP rests, with WORKING the MCU keeps off and
      the block is on its way to the CP or being worked on. */
  predicate Turns(cp: CpState, mcu: McuPc, sent: bool, core: CpPc) {
    if cp == IDLE then !sent && core == CIdle && mcu != MSend
    else
      cp == WORKING && if mcu == MSend then !sent && core == CIdle
      else (mcu == MIdle || mcu == MWait) && (sent <==> core == CIdle)
  }

  predicate Counts(require: nat, run: nat, cp: CpState, mcu: McuPc, core: CpPc) {
    require == run + if (cp == IDLE && mcu == MWork) || (cp == WORKING && core != CDone) then 1 else 0
  }

  /** The result of the frame before: silence for the first one. */
  ghost function Expected(c: Config, algo: Algo, fed: seq<Block>, k: nat): seq<int>
    requires k <= |fed|
  {
    if k == 0 then Repeat(0, c.frameLen) else algo(fed[..k])
  }

  ghost predicate Results(c: Config, algo: Algo, fed: seq<Block>, outs: seq<seq<int>>) {
    |outs| <= |fed| && forall k | 0 <= k < |outs| :: outs[k] == Expected(c, algo, fed, k)
  }

  /** The next result waits in the output buffer. */
  ghost predicate Ready(c: Config, algo: Algo, sh: Shared, fed: seq<Block>, k: nat)
    requires sh.Valid() && k <= |fed|
  {
    sh.outBuf[..sh.pcmLen] == Expected(c, algo, fed, k)
  }

  /** The last block fed stands in the input buffers. */
  predicate Holds(c: Config, sh: Shared, fed: seq<Block>, pcmLen: nat)
    requires c.Valid() && sh.Valid() && pcmLen <= PCM_MAX
  {
    fed != [] && fed[|fed| - 1] == Block(sh.inBuf[..pcmLen], sh.refBuf[..c.frameLen])
  }

  ghost predicate McuData(c: Config, algo: Algo, s: State)
    requires c.Valid() && s.sh.Valid()
  {
    match s.mcu
    case MIdle | MWait | MIn =>
      |s.fed| == |s.outs| && s.seen == s.fed && Ready(c, algo, s.sh, s.fed, |s.outs|)
    case MRef =>
      && |s.fed| == |s.outs| && s.seen == s.fed && Ready(c, algo, s.sh, s.fed, |s.outs|)
      && s.sh.inBuf[..c.PcmLen()] == s.pcm
    case MOut =>
      && |s.fed| == |s.outs| + 1 && s.seen == s.fed[..|s.outs|] && Ready(c, algo, s.sh, s.fed, |s.outs|)
      && Holds(c, s.sh, s.fed, c.PcmLen())
    case MLen =>
      |s.fed| == |s.outs| && s.fed != [] && s.seen == s.fed[..|s.fed| - 1] && Holds(c, s.sh, s.fed, c.PcmLen())
    case _ =>
      |s.fed| == |s.outs| && s.fed != [] && s.seen == s.fed[..|s.fed| - 1] && Holds(c, s.sh, s.fed, s.sh.pcmLen)
  }

  ghost predicate CpData(c: Config, algo: Algo, s: State)
    requires c.Valid() && s.sh.Valid()
  {
    && |s.fed| == |s.outs| && s.fed != []
    && match s.core
       case CIdle | CAlgo => s.seen == s.fed[..|s.fed| - 1] && Holds(c, s.sh, s.fed, s.sh.pcmLen)
       case CBack => s.seen == s.fed && s.sh.inBuf[..s.sh.pcmLen] == algo(s.fed)
       case CRun | CDone => s.seen == s.fed && s.sh.outBuf[..s.sh.pcmLen] == algo(s.fed)
  }

  ghost predicate Inv(c: Config, algo: Algo, s: State)
    requires c.Valid()
  {
    && s.sh.Valid() && (s.mcu != MIdle ==> Legal(c, s.pcm, s.ref))
    && Turns(s.sh.cp, s.mcu, s.sent, s.core) && Counts(s.sh.require, s.sh.run, s.sh.cp, s.mcu, s.core)
    && Results(c, algo, s.fed, s.outs)
    && (if s.sh.cp == IDLE then McuData(c, algo, s) else CpData(c, algo, s))
  }

  lemma StartInv(c: Config, algo: Algo)
    requires c.Valid()
    ensures Inv(c, algo, StartState(c))
  {
  }

  lemma ExpectedKept(c: Config, algo: Algo, fed: seq<Block>, b: Block, k: nat)
    requires k <= |fed|
    ensures Expected(c, algo, fed + [b], k) == Expected(c, algo, fed, k)
  {
    assert (fed + [b])[..k] == fed[..k];
  }

  lemma ResultsKept(c: Config, algo: Algo, fed: seq<Block>, b: Block, outs: seq<seq<int>>)
    requires Results(c, algo, fed, outs)
    ensures Results(c, algo, fed + [b], outs)
  {
    hide Expected;
    forall k | 0 <= k < |outs|
      ensures outs[k] == Expected(c, algo, fed + [b], k)
    {
      ExpectedKept(c, algo, fed, b, k);
    }
  }

  /** The input goes in: the result of the frame before is still to be had. */
  lemma FeedKeeps(c: Config, algo: Algo, s: State)
    requires c.Valid() && Inv(c, algo, s) && (s.mcu == MIn || s.mcu == MRef)
    ensures Inv(c, algo, McuStep(c, s))
  {
    hide Expected, Results;
    if s.mcu == MRef {
      var b := Block(s.pcm, NewRef(c, s.sh, s.ref)[..c.frameLen]);
      ResultsKept(c, algo, s.fed, b, s.outs);
      ExpectedKept(c, algo, s.fed, b, |s.outs|);
    }
  }

  lemma ResultAdded(c: Config, algo: Algo, fed: seq<Block>, outs: seq<seq<int>>, out: seq<int>)
    requires Results(c, algo, fed, outs) && |outs| < |fed| && out == Expected(c, algo, fed, |outs|)
    ensures Results(c, algo, fed, outs + [out])
  {
    hide Expected;
  }

  lemma McuKeeps(c: Config, algo: Algo, s: State)
    requires c.Valid() && Inv(c, algo, s)
    ensures Inv(c, algo, McuStep(c, s))
  {
    hide Expected, Results;
    if s.mcu == MIn || s.mcu == MRef {
      FeedKeeps(c, algo, s);
    } else if s.mcu == MOut {
      ResultAdded(c, algo, s.fed, s.outs, s.sh.outBuf[..s.sh.pcmLen]);
    }
  }

  lemma CpKeeps(c: Config, algo: Algo, s: State)
    requires c.Valid() && Fits(algo) && Inv(c, algo, s)
    ensures Inv(c, algo, CpStep(c, algo, s))
  {
    hide Results, Fits;
    if s.core == CAlgo {
      assert s.seen + [Heard(c, s.sh)] == s.fed;
    } else if s.core == CDone {
      assert s.fed[..|s.fed|] == s.fed;
    }
  }

  // ---------------------------------------------------------------------------------------------
  // Every interleaving
  // ---------------------------------------------------------------------------------------------

  /** A call begins while no other is under way, with the frame length the codec was set up for. */
  function Apply(c: Config, algo: Algo, s: State, step: Step): State
    requires c.Valid() && s.sh.Valid() && (s.mcu != MIdle ==> Legal(c, s.pcm, s.ref))
    requires |algo(s.seen + [Heard(c, s.sh)])| <= PCM_MAX
  {
    match step
    case Call(pcm, ref) => if s.mcu == MIdle && Legal(c, pcm, ref) then s.(mcu := MWait, pcm := pcm, ref := ref) else s
    case Mcu => McuStep(c, s)
    case Cp => CpStep(c, algo, s)
  }

  lemma ApplyKeeps(c: Config, algo: Algo, s: State, step: Step)
    requires c.Valid() && Fits(algo) && Inv(c, algo, s)
    ensures Inv(c, algo, Apply(c, algo, s, step))
  {
    hide Results, McuStep, CpStep, Expected;
    match step {
      case Call(pcm, ref) =>
      case Mcu => McuKeeps(c, algo, s);
      case Cp => CpKeeps(c, algo, s);
    }
  }

  /** The state after any interleaving of calls, MCU steps and CP steps. */
  ghost function Run(c: Config, algo: Algo, steps: seq<Step>): (s: State)
    requires c.Valid() && Fits(algo)
    ensures Inv(c, algo, s)
  {
    if steps == [] then
      StartInv(c, algo);
      StartState(c)
    else
      var before := Run(c, algo, steps[..|steps| - 1]);
      ApplyKeeps(c, algo, before, steps[|steps| - 1]);
      Apply(c, algo, before, steps[|steps| - 1])
  }

  predicate McuTouchesBuffers(pc: McuPc) {
    pc == MIn || pc == MRef || pc == MOut || pc == MLen
  }

  predicate CpTouchesBuffers(pc: CpPc) {
    pc == CAlgo || pc == CBack
  }

  /** The buffers are never shared: the MCU is in them only when the CP is not working, the CP only when
      it is, so never both; and at most one frame is required and not yet run. */
  lemma NeverBothInBuffers(c: Config, algo: Algo, steps: seq<Step>)
    requires c.Valid() && Fits(algo)
    ensures var s := Run(c, algo, steps);
            && (McuTouchesBuffers(s.mcu) ==> s.sh.cp == IDLE)
            && (CpTouchesBuffers(s.core) ==> s.sh.cp == WORKING)
            && s.sh.run <= s.sh.require <= s.sh.run + 1
  {
  }

  /** The MCU gets back one silent frame and then what the algorithm makes of each earlier block in turn,
      given all blocks up to it, with its length. */
  lemma OutputsAreOneFrameLate(c: Config, algo: Algo, steps: seq<Step>, k: nat)
    requires c.Valid() && Fits(algo) && k < |Run(c, algo, steps).outs|
    ensures var s := Run(c, algo, steps);
            && k <= |s.fed| && s.outs[k] == (if k == 0 then Repeat(0, c.frameLen) else algo(s.fed[..k]))
            && |s.outs| <= |s.fed| <= |s.outs| + 1
  {
  }

  /** CP steps until the state word is back at IDLE. */
  function StepsLeft(core: CpPc): nat {
    match core
    case CIdle => 5
    case CAlgo => 4
    case CBack => 3
    case CRun => 2
    case CDone => 1
  }

  function CpSteps(n: nat): (steps: seq<Step>)
    ensures |steps| == n
  {
    if n == 0 then [] else CpSteps(n - 1) + [Cp]
  }

  /** A waiting MCU is waiting for the CP alone: every CP step brings the end nearer. */
  lemma CpStepNearer(c: Config, algo: Algo, s: State)
    requires c.Valid() && Fits(algo) && Inv(c, algo, s) && s.mcu == MWait && s.sh.cp == WORKING
    ensures var t := CpStep(c, algo, s);
            && t.mcu == MWait && t.pcm == s.pcm
            && if StepsLeft(s.core) == 1 then t.sh.cp == IDLE
               else t.sh.cp == WORKING && StepsLeft(t.core) == StepsLeft(s.core) - 1
  {
  }

  /** So the wait loop cannot hang: at most five CP steps and it ends, with the buffers free. */
  lemma {:induction false} WaitEnds(c: Config, algo: Algo, steps: seq<Step>, n: nat)
    requires c.Valid() && Fits(algo)
    requires var s := Run(c, algo, steps);
             s.mcu == MWait && if s.sh.cp == WORKING then n == StepsLeft(s.core) else n == 0
    ensures n <= 5 && Run(c, algo, steps + CpSteps(n) + [Mcu]).mcu == MIn
    decreases n
  {
    hide Results, CpStep, McuData, CpData;
    var s := Run(c, algo, steps);
    if n == 0 {
      assert steps + CpSteps(n) == steps;
      assert (steps + [Mcu])[..|steps|] == steps;
    } else {
      var more := steps + [Cp];
      assert more[..|steps|] == steps;
      CpStepNearer(c, algo, s);
      WaitEnds(c, algo, more, n - 1);
      CpStepsFirst(n);
      assert more + CpSteps(n - 1) == steps + CpSteps(n);
    }
  }

  lemma {:induction false} CpStepsFirst(n: nat)
    requires n > 0
    ensures CpSteps(n) == [Cp] + CpSteps(n - 1)
  {
    if n > 1 {
      CpStepsFirst(n - 1);
    }
  }

  // ---------------------------------------------------------------------------------------------
  // The code of each core
  // ---------------------------------------------------------------------------------------------

  /** `speech_copy_int16`. */
  method CopyInt16(dst: array<int>, src: seq<int>)
    requires |src| <= dst.Length
    modifies dst
    ensures dst[..] == Overwrite(old(dst[..]), src)
  {
    var i := 0;
    while i < |src|
      invariant 0 <= i <= |src|
      invariant forall k | 0 <= k < i :: dst[k] == src[k]
      invariant forall k | i <= k < dst.Length :: dst[k] == old(dst[k])
    {
      dst[i] := src[i];
      i := i + 1;
    }
  }

  /** A whole call of the MCU: input in, result of the frame before out, turn to the CP. */
  function Fed(c: Config, sh: Shared, pcm: seq<int>, ref: Option<seq<int>>): Shared
    requires c.Valid() && sh.Valid() && Legal(c, pcm, ref)
  {
    sh.(cp := WORKING, inBuf := Overwrite(sh.inBuf, pcm), refBuf := NewRef(c, sh, ref), pcmLen := |pcm|,
        require := sh.require + 1)
  }

  /** A whole run of the CP: the result in both buffers, turn to the MCU. */
  function Worked(sh: Shared, out: seq<int>): Shared
    requires sh.Valid() && |out| <= PCM_MAX
  {
    sh.(cp := IDLE, inBuf := Overwrite(sh.inBuf, out), outBuf := Overwrite(sh.outBuf, out), pcmLen := |out|,
        run := sh.run + 1)
  }

  class ScoCp {
    const config: Config
    const inPcmBuf: array<int>
    const outPcmBuf: array<int>
    const inRefBuf: array<int>
    var state: CpState
    var pcmLen: nat
    var requireCnt: nat
    var runCnt: nat

    ghost predicate Valid()
      reads this
    {
      && config.Valid() && inPcmBuf.Length == PCM_MAX && outPcmBuf.Length == PCM_MAX
      && inRefBuf.Length == FRAME_LEN_MAX && inPcmBuf != outPcmBuf && inPcmBuf != inRefBuf && outPcmBuf != inRefBuf
      && pcmLen <= PCM_MAX
    }

    ghost function View(): Shared
      reads this, inPcmBuf, outPcmBuf, inRefBuf
    {
      Shared(state, inPcmBuf[..], outPcmBuf[..], inRefBuf[..], pcmLen, requireCnt, runCnt)
    }

    /** `sco_cp_init`. */
    constructor (c: Config)
      requires c.Valid()
      ensures Valid() && config == c && View() == StartState(c).sh
      ensures fresh(inPcmBuf) && fresh(outPcmBuf) && fresh(inRefBuf)
    {
      config := c;
      inPcmBuf := new int[PCM_MAX](_ => 0);
      outPcmBuf := new int[PCM_MAX](_ => 0);
      inRefBuf := new int[FRAME_LEN_MAX](_ => 0);
      requireCnt, runCnt := 0, 0;
      pcmLen := c.frameLen;
      state := IDLE;
    }

    /** `sco_cp_process` once its wait is over; a closed pipeline leaves the frame as it is. */
    method Process(pcmBuf: array<int>, ref: Option<seq<int>>) returns (len: nat)
      requires Valid() && state != WORKING && pcmBuf.Length == PCM_MAX
      requires pcmBuf != inPcmBuf && pcmBuf != outPcmBuf && pcmBuf != inRefBuf
      requires ref.Some? ==> |ref.value| == config.frameLen
      modifies this, inPcmBuf, inRefBuf, pcmBuf
      ensures Valid()
      ensures old(state) == IDLE ==>
                && View() == Fed(config, old(View()), old(pcmBuf[..config.PcmLen()]), ref)
                && len == old(pcmLen) && pcmBuf[..] == Overwrite(old(pcmBuf[..]), old(outPcmBuf[..pcmLen]))
      ensures old(state) == NONE ==>
                View() == old(View()) && len == config.PcmLen() && pcmBuf[..] == old(pcmBuf[..])
    {
      var newLen := config.PcmLen();
      if state != IDLE {
        return newLen;
      }
      CopyInt16(inPcmBuf, pcmBuf[..newLen]);
      if ref.Some? {
        CopyInt16(inRefBuf, ref.value);
      }
      CopyInt16(pcmBuf, outPcmBuf[..pcmLen]);
      len := pcmLen;
      pcmLen := newLen;
      requireCnt := requireCnt + 1;
      state := WORKING;
    }

    /** `sco_cp_main`. */
    method Work(algo: Algo, seen: seq<Block>)
      requires Valid() && |algo(seen + [Heard(config, View())])| <= PCM_MAX
      modifies this, inPcmBuf, outPcmBuf
      ensures Valid() && View() == Worked(old(View()), algo(seen + [Heard(config, old(View()))]))
    {
      var out := algo(seen + [Block(inPcmBuf[..pcmLen], inRefBuf[..config.frameLen])]);
      CopyInt16(inPcmBuf, out);
      pcmLen := |out|;
      CopyInt16(outPcmBuf, inPcmBuf[..pcmLen]);
      runCnt := runCnt + 1;
      state := IDLE;
    }
  }

  function FourSteps(c: Config, s: State): (t: State)
    requires c.Valid() && s.sh.Valid() && Legal(c, s.pcm, s.ref)
    ensures t.sh.Valid() && t.pcm == s.pcm && t.ref == s.ref
  {
    hide McuStep;
    McuStep(c, McuStep(c, McuStep(c, McuStep(c, s))))
  }

  /** The steps of one call, taken together, are the code of the call. */
  lemma CallIsSteps(c: Config, s: State)
    requires c.Valid() && s.sh.Valid() && Legal(c, s.pcm, s.ref) && s.mcu == MWait && s.sh.cp == IDLE
    ensures var t := FourSteps(c, FourSteps(c, s));
            && t.sh == Fed(c, s.sh, s.pcm, s.ref) && t.mcu == MIdle && t.sent
            && t.outs == s.outs + [s.sh.outBuf[..s.sh.pcmLen]]
  {
    CopySteps(c, s);
    TurnSteps(c, FourSteps(c, s));
  }

  lemma CopySteps(c: Config, s: State)
    requires c.Valid() && s.sh.Valid() && Legal(c, s.pcm, s.ref) && s.mcu == MWait && s.sh.cp == IDLE
    ensures var t := FourSteps(c, s);
            && t.sh == s.sh.(inBuf := Overwrite(s.sh.inBuf, s.pcm), refBuf := NewRef(c, s.sh, s.ref))
            && t.mcu == MLen && t.sent == s.sent && t.outs == s.outs + [s.sh.outBuf[..s.sh.pcmLen]]
  {
  }

  lemma TurnSteps(c: Config, s: State)
    requires c.Valid() && s.sh.Valid() && Legal(c, s.pcm, s.ref) && s.mcu == MLen
    ensures var t := FourSteps(c, s);
            && t.sh == s.sh.(pcmLen := |s.pcm|, require := s.sh.require + 1, cp := WORKING)
            && t.mcu == MIdle && t.sent && t.outs == s.outs
  {
  }

  /** And so are the steps of one run of the CP. */
  lemma MainIsSteps(c: Config, algo: Algo, s: State)
    requires c.Valid() && s.sh.Valid() && Fits(algo) && s.core == CAlgo
    ensures var t := CpStep(c, algo, CpStep(c, algo, CpStep(c, algo, CpStep(c, algo, s))));
            t.sh == Worked(s.sh, algo(s.seen + [Heard(c, s.sh)])) && t.core == CIdle && t.outs == s.outs
  {
    var out := algo(s.seen + [Heard(c, s.sh)]);
    assert Overwrite(s.sh.inBuf, out)[..|out|] == out;
  }
}
