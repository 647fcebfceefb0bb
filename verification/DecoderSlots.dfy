/** The three PCM slots through which the coprocessor (CP) hands decoded blocks to the main core (MCU).

    Each slot has a state word. The CP turns IDLE into WORKING and WORKING into DONE or FAILED, the
    MCU turns DONE or FAILED back into IDLE, and each core walks the slots with an index of its own. */
module DecoderSlots {
  import opened Bytes

  const SLOTS := 3

  datatype SlotState = IDLE | WORKING | DONE | FAILED

  predicate Finished(s: SlotState) {
    s == DONE || s == FAILED
  }

  /** The wrap of `cp_dec_idx` and `mcu_dec_idx`. */
  function NextIdx(i: nat): (j: nat)
    requires i < SLOTS
    ensures j < SLOTS && j == (i + 1) % SLOTS
  {
    if i + 1 >= SLOTS then 0 else i + 1
  }

  // ---------------------------------------------------------------------------------------------
  // The two cores, interleaved
  // ---------------------------------------------------------------------------------------------

  /** Where the CP is inside `cp_a2dp_main`; `out` is the PCM its current call has decoded. */
  datatype Cp =
    | CpIdle
    | CpClearing                   // slot claimed, its length not yet cleared
    | CpDecoding(out: seq<byte>)
    | CpClosing(out: seq<byte>)    // length written, state not yet

  /** Where the MCU is inside `mcu_decode_a2dp_process`. */
  datatype Mcu =
    | McuIdle
    | McuSawDone
    | McuCopying(out: seq<byte>)
    | McuLeaving(copied: bool)

  /** What became of one slot the CP finished: a block decoded in one call, a call that filled up
      but resumed a slot with PCM of earlier calls in it (DONE, yet too long), or a short call. */
  datatype Outcome = Good(pcm: seq<byte>) | TooLong | Bad

  /** Shared variables, program counters and history: `log` lists every slot finished so far, primed
      ones first; `copied[i]` says whether the MCU played entry `i` before it released it; `blocks`
      are the PCM blocks handed to the audio output. */
  datatype State = State(
    loop: nat, base: nat, slots: seq<SlotState>, outLen: seq<nat>, pcm: seq<seq<byte>>,
    cpIdx: nat, mcuIdx: nat, cp: Cp, mcu: Mcu,
    log: seq<Outcome>, copied: seq<bool>, blocks: seq<seq<byte>>)
  {
    predicate InRange() {
      && |slots| == |outLen| == |pcm| == SLOTS && cpIdx < SLOTS && mcuIdx < SLOTS
      && (forall i | 0 <= i < SLOTS :: |pcm[i]| == loop)
    }
  }

  datatype Step =
    | CpBegin | CpClear | CpDecode(data: seq<byte>) | CpRetry | CpClose | CpHandOver
    | McuLook | McuCheckLen | McuCopy(n: nat) | McuCopied | McuLeave

  predicate Enabled(s: State, step: Step)
    requires s.InRange()
  {
    match step
    case CpBegin => s.cp.CpIdle? && !Finished(s.slots[s.cpIdx])
    case CpClear => s.cp.CpClearing?
    case CpDecode(data) => s.cp.CpDecoding? && |s.cp.out| + |data| <= s.loop
    case CpRetry => s.cp.CpDecoding?
    case CpClose => s.cp.CpDecoding?
    case CpHandOver => s.cp.CpClosing?
    case McuLook => s.mcu.McuIdle?
    case McuCheckLen => s.mcu.McuSawDone?
    case McuCopy(n) => s.mcu.McuCopying? && |s.mcu.out| + n <= s.loop
    case McuCopied => s.mcu.McuCopying? && |s.mcu.out| == s.loop
    case McuLeave => s.mcu.McuLeaving?
  }

  /** One step of one core. Each step touches at most one shared variable, except that a finished
      slot's state and the index its owner alone uses move together. */
  function Apply(s: State, step: Step): (t: State)
    requires s.InRange()
    ensures t.InRange()
  {
    if !Enabled(s, step) then s else
    match step
    case CpBegin => Begin(s)
    case CpClear => s.(outLen := s.outLen[s.cpIdx := 0], cp := CpDecoding([]))
    case CpDecode(data) => Decode(s, data)
    case CpRetry => s.(outLen := Lengthened(s), cp := CpIdle)
    case CpClose => s.(outLen := Lengthened(s), cp := CpClosing(s.cp.out))
    case CpHandOver => HandOver(s)
    case McuLook => s.(mcu := if s.slots[s.mcuIdx] == DONE then McuSawDone else McuLeaving(false))
    case McuCheckLen => s.(mcu := if s.outLen[s.mcuIdx] == s.loop then McuCopying([]) else McuLeaving(false))
    case McuCopy(n) =>
      var at := |s.mcu.out|;
      s.(mcu := McuCopying(s.mcu.out + s.pcm[s.mcuIdx][at..at + n]))
    case McuCopied => s.(mcu := McuLeaving(true), blocks := s.blocks + [s.mcu.out])
    case McuLeave => Leave(s)
  }

  /** A slot that is WORKING is resumed, from the start once its length has reached the block size. */
  function Begin(s: State): State
    requires s.InRange()
  {
    if s.slots[s.cpIdx] == IDLE then s.(slots := s.slots[s.cpIdx := WORKING], cp := CpClearing)
    else
      s.(outLen := if s.outLen[s.cpIdx] < s.loop then s.outLen else s.outLen[s.cpIdx := 0], cp := CpDecoding([]))
  }

  function Lengthened(s: State): (l: seq<nat>)
    requires s.InRange() && s.cp.CpDecoding?
    ensures |l| == SLOTS
  {
    s.outLen[s.cpIdx := s.outLen[s.cpIdx] + |s.cp.out|]
  }

  /** `data` laid over `was` from position `at` on, as far as it reaches into it. */
  function Laid(was: seq<byte>, at: int, data: seq<byte>): (now: seq<byte>)
    ensures |now| == |was|
  {
    seq(|was|, j requires 0 <= j < |was| => if at <= j < at + |data| then data[j - at] else was[j])
  }

  predicate HoldsBlock(s: State, k: nat)
    requires s.InRange() && k < SLOTS
  {
    s.slots[k] == DONE && s.outLen[k] == s.loop
  }

  /** A call decodes up to a whole block, wherever in the slot it starts; what does not fit lands in
      the next slot. Memory behind the last slot is not part of this model. */
  function Decode(s: State, data: seq<byte>): (t: State)
    requires s.InRange() && s.cp.CpDecoding?
    ensures t.InRange()
  {
    var k := s.cpIdx;
    var at := s.outLen[k] + |s.cp.out|;
    var own := s.(pcm := s.pcm[k := Laid(s.pcm[k], at, data)], cp := CpDecoding(s.cp.out + data));
    if at + |data| <= s.loop || k + 1 == SLOTS then own
    else own.(pcm := own.pcm[k + 1 := Laid(s.pcm[k + 1], at - s.loop, data)])
  }

  function Entry(s: State): Outcome
    requires s.InRange() && s.cp.CpClosing?
  {
    if |s.cp.out| != s.loop then Bad else if s.outLen[s.cpIdx] != s.loop then TooLong else Good(s.cp.out)
  }

  /** DONE or FAILED by what this call alone decoded. */
  function HandOver(s: State): State
    requires s.InRange() && s.cp.CpClosing?
  {
    s.(slots := s.slots[s.cpIdx := if |s.cp.out| == s.loop then DONE else FAILED],
       cpIdx := NextIdx(s.cpIdx), cp := CpIdle, log := s.log + [Entry(s)])
  }

  /** The second read of the slot's state decides whether it is released. */
  function Leave(s: State): State
    requires s.InRange() && s.mcu.McuLeaving?
  {
    if Finished(s.slots[s.mcuIdx]) then
      s.(slots := s.slots[s.mcuIdx := IDLE], mcuIdx := NextIdx(s.mcuIdx), mcu := McuIdle,
         copied := s.copied + [s.mcu.copied])
    else s.(mcu := McuIdle)
  }

  /** `mcu_decode_a2dp_init`: the slots from `mcu_dec_idx` on are primed as DONE. That index is 1
      with LHDC and 2 otherwise. */
  ghost predicate Init(s: State) {
    && s.InRange() && 0 < s.loop && (s.base == 1 || s.base == 2)
    && s.slots == seq(SLOTS, i => if i < s.base then IDLE else DONE)
    && s.outLen == seq(SLOTS, i => if i < s.base then 0 else s.loop)
    && s.cpIdx == 0 && s.mcuIdx == s.base && s.cp == CpIdle && s.mcu == McuIdle
    && s.log == (if s.base == 1 then [Good(s.pcm[1]), Good(s.pcm[2])] else [Good(s.pcm[2])])
    && s.copied == [] && s.blocks == []
  }

  function Exec(s: State, steps: seq<Step>): (t: State)
    requires s.InRange()
    ensures t.InRange()
  {
    if steps == [] then s else Apply(Exec(s, steps[..|steps| - 1]), steps[|steps| - 1])
  }

  // ---------------------------------------------------------------------------------------------
  // The handshake
  // ---------------------------------------------------------------------------------------------

  /** The slot that entry `i` of the log occupies. */
  function SlotOf(base: nat, i: nat): (k: nat)
    ensures k < SLOTS
  {
    (base + i) % SLOTS
  }

  ghost predicate Inv(s: State) {
    && s.InRange() && 0 < s.loop
    && |s.copied| <= |s.log| <= |s.copied| + SLOTS
    && s.cpIdx == SlotOf(s.base, |s.log|) && s.mcuIdx == SlotOf(s.base, |s.copied|)
    && Pending(s.slots, s.outLen, s.loop, s.base, s.log, |s.copied|)
    && Vacant(s.slots, s.base, |s.log|, |s.copied|)
    && CpInv(s) && McuInv(s)
  }

  /** Finished slots not released yet say what became of them. */
  ghost predicate Pending(slots: seq<SlotState>, outLen: seq<nat>, loop: nat, base: nat, log: seq<Outcome>,
                          released: nat)
    requires |slots| == |outLen| == SLOTS
  {
    forall i | released <= i < |log| ::
      var k := SlotOf(base, i);
      && slots[k] == (if log[i].Bad? then FAILED else DONE)
      && (slots[k] == DONE ==> (outLen[k] == loop <==> log[i].Good?))
      && (log[i].Good? ==> |log[i].pcm| == loop)
  }

  /** All other slots are IDLE, except that the CP's own may be WORKING. */
  ghost predicate Vacant(slots: seq<SlotState>, base: nat, finished: nat, released: nat)
    requires |slots| == SLOTS
  {
    forall i | finished <= i < released + SLOTS ::
      slots[SlotOf(base, i)] == IDLE || (i == finished && slots[SlotOf(base, i)] == WORKING)
  }

  /** The CP works in a slot of its own. What a call has decoded stands at the start of the slot
      unless an earlier call left PCM there, and then the length gives that away. */
  ghost predicate CpInv(s: State)
    requires s.InRange()
  {
    var k := s.cpIdx;
    && (!s.cp.CpIdle? ==> |s.log| < |s.copied| + SLOTS && s.slots[k] == WORKING)
    && (s.cp.CpDecoding? ==> |s.cp.out| <= s.loop && s.outLen[k] < s.loop)
    && (s.cp.CpDecoding? && s.outLen[k] == 0 ==> s.pcm[k][..|s.cp.out|] == s.cp.out)
    && (s.cp.CpClosing? ==> |s.cp.out| <= s.loop)
    && (s.cp.CpClosing? && |s.cp.out| == s.outLen[k] == s.loop ==> s.pcm[k] == s.cp.out)
  }

  /** The MCU plays, or has played, whole blocks only. */
  ghost predicate McuInv(s: State)
    requires |s.copied| <= |s.log|
  {
    var r := |s.copied|;
    && (forall i | 0 <= i < r :: s.copied[i] ==> s.log[i].Good?)
    && (s.mcu.McuSawDone? ==> r < |s.log| && !s.log[r].Bad?)
    && (s.mcu.McuCopying? || s.mcu == McuLeaving(true) ==> r < |s.log| && s.log[r].Good?)
    && (s.mcu.McuCopying? ==> |s.mcu.out| <= s.loop)
  }

  lemma InitInv(s: State)
    requires Init(s)
    ensures Inv(s) && Faithful(s)
  {
  }

  lemma CpBeginKeeps(s: State)
    requires Inv(s) && Enabled(s, CpBegin)
    ensures Inv(Apply(s, CpBegin))
  {
    hide Pending, Vacant;
    BeginSlots(s.slots, s.outLen, s.loop, s.base, s.log, |s.copied|, s.outLen);
    BeginSlots(s.slots, s.outLen, s.loop, s.base, s.log, |s.copied|, s.outLen[s.cpIdx := 0]);
    assert s.slots[s.cpIdx := WORKING] == s.slots || s.slots[s.cpIdx] == IDLE;
  }

  /** A slot that is not finished is free for the CP, and claiming it disturbs no other. */
  lemma BeginSlots(slots: seq<SlotState>, outLen: seq<nat>, loop: nat, base: nat, log: seq<Outcome>,
                   released: nat, lens: seq<nat>)
    requires |slots| == |outLen| == |lens| == SLOTS && released <= |log| <= released + SLOTS
    requires Pending(slots, outLen, loop, base, log, released) && Vacant(slots, base, |log|, released)
    requires !Finished(slots[SlotOf(base, |log|)])
    requires forall k | 0 <= k < SLOTS && k != SlotOf(base, |log|) :: lens[k] == outLen[k]
    ensures |log| < released + SLOTS
    ensures slots[SlotOf(base, |log|)] == IDLE || slots[SlotOf(base, |log|)] == WORKING
    ensures var after := slots[SlotOf(base, |log|) := WORKING];
            Pending(after, lens, loop, base, log, released) && Vacant(after, base, |log|, released)
  {
    assert SlotOf(base, released + SLOTS) == SlotOf(base, released);
    assert released < |log| ==> Finished(slots[SlotOf(base, released)]);
  }

  /** The CP's steps inside its slot: clearing, decoding, retrying, closing. */
  lemma WorkKeeps(s: State, t: State)
    requires Inv(s) && s.slots[s.cpIdx] == WORKING
    requires t == s.(outLen := t.outLen, pcm := t.pcm, cp := t.cp) && t.InRange() && CpInv(t)
    requires forall k | 0 <= k < SLOTS && k != s.cpIdx :: t.outLen[k] == s.outLen[k]
    ensures Inv(t)
  {
    hide Pending, Vacant;
    BeginSlots(s.slots, s.outLen, s.loop, s.base, s.log, |s.copied|, t.outLen);
    assert s.slots[s.cpIdx := WORKING] == s.slots;
  }

  lemma DecodeKeeps(s: State, data: seq<byte>)
    requires Inv(s) && Enabled(s, CpDecode(data))
    ensures Inv(Decode(s, data))
  {
    hide Pending, Vacant, McuInv;
    var t := Decode(s, data);
    var k := s.cpIdx;
    assert t.pcm[k] == Laid(s.pcm[k], s.outLen[k] + |s.cp.out|, data);
    if s.outLen[k] == 0 {
      assert t.pcm[k][..|t.cp.out|] == s.pcm[k][..|s.cp.out|] + data;
    }
    WorkKeeps(s, t);
  }

  lemma LengthStepsKeep(s: State)
    requires Inv(s)
    ensures Inv(Apply(s, CpClear)) && Inv(Apply(s, CpRetry)) && Inv(Apply(s, CpClose))
  {
    hide Pending, Vacant, McuInv;
    if s.cp.CpClearing? {
      WorkKeeps(s, Apply(s, CpClear));
    }
    if s.cp.CpDecoding? {
      WorkKeeps(s, Apply(s, CpRetry));
      assert s.pcm[s.cpIdx][..s.loop] == s.pcm[s.cpIdx];
      WorkKeeps(s, Apply(s, CpClose));
    }
  }

  lemma HandOverKeeps(s: State)
    requires Inv(s) && s.cp.CpClosing?
    ensures Inv(HandOver(s))
  {
  }

  lemma ReleaseOldest(slots: seq<SlotState>, outLen: seq<nat>, loop: nat, base: nat, log: seq<Outcome>,
                      released: nat)
    requires |slots| == |outLen| == SLOTS && released < |log| <= released + SLOTS
    requires Pending(slots, outLen, loop, base, log, released) && Vacant(slots, base, |log|, released)
    ensures var after := slots[SlotOf(base, released) := IDLE];
            && Pending(after, outLen, loop, base, log, released + 1)
            && Vacant(after, base, |log|, released + 1)
    ensures NextIdx(SlotOf(base, released)) == SlotOf(base, released + 1)
  {
    assert SlotOf(base, released + SLOTS) == SlotOf(base, released);
  }

  /** The slot at the MCU's index is finished exactly when some finished slot is not released. */
  lemma OldestFinished(s: State)
    requires Inv(s)
    ensures Finished(s.slots[s.mcuIdx]) <==> |s.copied| < |s.log|
  {
    var r := |s.copied|;
    assert r < |s.log| ==> Finished(s.slots[SlotOf(s.base, r)]);
    assert r == |s.log| ==> !Finished(s.slots[SlotOf(s.base, r)]);
  }

  lemma LeaveKeeps(s: State)
    requires Inv(s) && s.mcu.McuLeaving?
    ensures Inv(Leave(s))
  {
    hide Pending, Vacant;
    OldestFinished(s);
    var r := |s.copied|;
    if Finished(s.slots[s.mcuIdx]) {
      ReleaseOldest(s.slots, s.outLen, s.loop, s.base, s.log, r);
      var t := Leave(s);
      assert t.copied[..r] == s.copied;
      assert s.mcuIdx == s.cpIdx ==> s.cp.CpIdle? by {
        assert !s.cp.CpIdle? ==> s.slots[s.cpIdx] == WORKING;
      }
    }
  }

  lemma LookKeeps(s: State)
    requires Inv(s)
    ensures Inv(Apply(s, McuLook)) && Inv(Apply(s, McuCheckLen))
  {
    OldestFinished(s);
    var r := |s.copied|;
    assert r < |s.log| ==> (s.slots[SlotOf(s.base, r)] == FAILED <==> s.log[r].Bad?);
  }

  lemma CopyKeeps(s: State, n: nat)
    requires Inv(s)
    ensures Inv(Apply(s, McuCopy(n))) && Inv(Apply(s, McuCopied))
  {
    hide Pending, Vacant;
  }

  lemma StepKeeps(s: State, step: Step)
    requires Inv(s)
    ensures Inv(Apply(s, step))
  {
    hide Pending, Vacant, CpInv, McuInv;
    if Enabled(s, step) {
      match step
      case CpBegin => CpBeginKeeps(s);
      case CpClear => LengthStepsKeep(s);
      case CpDecode(data) => DecodeKeeps(s, data);
      case CpRetry => LengthStepsKeep(s);
      case CpClose => LengthStepsKeep(s);
      case CpHandOver => HandOverKeeps(s);
      case McuLook => LookKeeps(s);
      case McuCheckLen => LookKeeps(s);
      case McuCopy(n) => CopyKeeps(s, n);
      case McuCopied => CopyKeeps(s, 0);
      case McuLeave => LeaveKeeps(s);
    }
  }

  lemma {:induction false} RunKeeps(s: State, steps: seq<Step>)
    requires Inv(s)
    ensures Inv(Exec(s, steps))
  {
    hide Pending, Vacant, CpInv, McuInv;
    if steps != [] {
      RunKeeps(s, steps[..|steps| - 1]);
      StepKeeps(Exec(s, steps[..|steps| - 1]), steps[|steps| - 1]);
    }
  }

  function FinishedCount(slots: seq<SlotState>): nat
    requires |slots| == SLOTS
  {
    (if Finished(slots[0]) then 1 else 0) + (if Finished(slots[1]) then 1 else 0)
    + (if Finished(slots[2]) then 1 else 0)
  }

  /** The slot `j` places after `mcu_dec_idx`. */
  lemma SlotAhead(s: State, j: nat)
    requires Inv(s) && j < SLOTS
    ensures var k, n := SlotOf(s.mcuIdx, j), |s.log| - |s.copied|;
            && (Finished(s.slots[k]) <==> j < n)
            && (s.slots[k] == WORKING ==> j == n && k == s.cpIdx)
  {
    assert SlotOf(s.mcuIdx, j) == SlotOf(s.base, |s.copied| + j);
  }

  /** The finished slots are the ones from `mcu_dec_idx` on, the CP's index is that many slots
      ahead, and only the CP's own slot may be WORKING. */
  ghost predicate InStep(slots: seq<SlotState>, mcuIdx: nat, cpIdx: nat)
    requires |slots| == SLOTS
  {
    var n := FinishedCount(slots);
    && cpIdx == SlotOf(mcuIdx, n)
    && (forall j: nat | j < SLOTS :: Finished(slots[SlotOf(mcuIdx, j)]) <==> j < n)
    && (forall k | 0 <= k < SLOTS :: slots[k] == WORKING ==> k == cpIdx)
  }

  lemma InvInStep(s: State)
    requires Inv(s)
    ensures InStep(s.slots, s.mcuIdx, s.cpIdx) && FinishedCount(s.slots) == |s.log| - |s.copied|
  {
    hide Pending, Vacant, CpInv, McuInv, FinishedCount;
    var n := |s.log| - |s.copied|;
    forall j: nat | j < SLOTS
      ensures Finished(s.slots[SlotOf(s.mcuIdx, j)]) <==> j < n
      ensures s.slots[SlotOf(s.mcuIdx, j)] == WORKING ==> SlotOf(s.mcuIdx, j) == s.cpIdx
    {
      SlotAhead(s, j);
    }
    assert SlotOf(s.mcuIdx, n) == SlotOf(s.base, |s.copied| + n);
    CountFromIndex(s.slots, s.mcuIdx, s.cpIdx, n);
  }

  /** The two indices and the slot states agree in every reachable state. */
  lemma HandshakeHolds(init: State, steps: seq<Step>)
    requires Init(init)
    ensures var s := Exec(init, steps); InStep(s.slots, s.mcuIdx, s.cpIdx)
  {
    InitInv(init);
    RunKeeps(init, steps);
    InvInStep(Exec(init, steps));
  }

  lemma CountFromIndex(slots: seq<SlotState>, mcuIdx: nat, cpIdx: nat, n: nat)
    requires |slots| == SLOTS && mcuIdx < SLOTS && n <= SLOTS
    requires forall j: nat | j < SLOTS :: Finished(slots[SlotOf(mcuIdx, j)]) <==> j < n
    requires forall j: nat | j < SLOTS :: slots[SlotOf(mcuIdx, j)] == WORKING ==> SlotOf(mcuIdx, j) == cpIdx
    ensures FinishedCount(slots) == n
    ensures forall k | 0 <= k < SLOTS :: slots[k] == WORKING ==> k == cpIdx
  {
    assert {SlotOf(mcuIdx, 0), SlotOf(mcuIdx, 1), SlotOf(mcuIdx, 2)} == {0, 1, 2};
  }

  // ---------------------------------------------------------------------------------------------
  // What is played
  // ---------------------------------------------------------------------------------------------

  /** The entries of the log that were copied, in order. */
  function Chosen(log: seq<Outcome>, copied: seq<bool>): seq<seq<byte>>
    requires |copied| <= |log|
    requires forall i | 0 <= i < |copied| :: copied[i] ==> log[i].Good?
  {
    if copied == [] then []
    else
      var n := |copied| - 1;
      Chosen(log, copied[..n]) + if copied[n] then [log[n].pcm] else []
  }

  /** Blocks waiting are as decoded, what the MCU is copying is the oldest one, and what it has
      played are the entries marked so. */
  ghost predicate Faithful(s: State)
    requires Inv(s)
  {
    && Waiting(s)
    && (s.mcu.McuCopying? ==> s.mcu.out == s.log[|s.copied|].pcm[..|s.mcu.out|])
    && s.blocks == Chosen(s.log, s.copied) + if s.mcu == McuLeaving(true) then [s.log[|s.copied|].pcm] else []
  }

  ghost predicate Waiting(s: State)
    requires s.InRange()
  {
    forall i | |s.copied| <= i < |s.log| && s.log[i].Good? :: s.pcm[SlotOf(s.base, i)] == s.log[i].pcm
  }

  lemma {:induction false} ChosenStable(log: seq<Outcome>, more: seq<Outcome>, copied: seq<bool>)
    requires |copied| <= |log|
    requires forall i | 0 <= i < |copied| :: copied[i] ==> log[i].Good?
    ensures Chosen(log + more, copied) == Chosen(log, copied)
  {
    if copied != [] {
      ChosenStable(log, more, copied[..|copied| - 1]);
    }
  }

  /** A decode that runs past the end of its slot and changes the block that waits in the next one. */
  predicate Overruns(s: State, step: Step)
    requires s.InRange()
  {
    && step.CpDecode? && Enabled(s, step) && s.cpIdx + 1 < SLOTS && HoldsBlock(s, s.cpIdx + 1)
    && var at := s.outLen[s.cpIdx] + |s.cp.out|;
       var next := s.pcm[s.cpIdx + 1];
       at + |step.data| > s.loop && Laid(next, at - s.loop, step.data) != next
  }

  predicate NeverOverruns(init: State, steps: seq<Step>)
    requires init.InRange()
  {
    steps == [] ||
      var before := steps[..|steps| - 1];
      NeverOverruns(init, before) && !Overruns(Exec(init, before), steps[|steps| - 1])
  }

  /** A slot that holds a block is that of an entry not released. */
  lemma BlockHasEntry(s: State, k: nat) returns (i: nat)
    requires Inv(s) && k < SLOTS && HoldsBlock(s, k)
    ensures |s.copied| <= i < |s.log| && s.log[i].Good? && SlotOf(s.base, i) == k
  {
    var j := if k >= s.mcuIdx then k - s.mcuIdx else k + SLOTS - s.mcuIdx;
    assert SlotOf(s.mcuIdx, j) == k;
    SlotAhead(s, j);
    i := |s.copied| + j;
  }

  /** Waiting blocks stay as they are through any decode but an overrun. */
  lemma DecodeWaiting(s: State, data: seq<byte>)
    requires Inv(s) && Waiting(s) && Enabled(s, CpDecode(data))
    ensures Waiting(Decode(s, data)) <==> !Overruns(s, CpDecode(data))
  {
    var t := Decode(s, data);
    if Overruns(s, CpDecode(data)) {
      var i := BlockHasEntry(s, s.cpIdx + 1);
      assert t.pcm[SlotOf(s.base, i)] != s.log[i].pcm;
    } else {
      forall i | |s.copied| <= i < |s.log| && s.log[i].Good?
        ensures t.pcm[SlotOf(s.base, i)] == s.log[i].pcm
      {
        var k := SlotOf(s.base, i);
        assert HoldsBlock(s, k);
        assert k != s.cpIdx;
        assert t.pcm[k] == s.pcm[k];
      }
    }
  }

  lemma DecodeFaithful(s: State, data: seq<byte>)
    requires Inv(s) && Faithful(s) && Enabled(s, CpDecode(data)) && !Overruns(s, CpDecode(data))
    ensures Inv(Decode(s, data)) && Faithful(Decode(s, data))
  {
    hide Chosen, Pending, Vacant;
    DecodeKeeps(s, data);
    DecodeWaiting(s, data);
  }

  lemma HandOverFaithful(s: State)
    requires Inv(s) && Faithful(s) && s.cp.CpClosing?
    ensures Inv(HandOver(s)) && Faithful(HandOver(s))
  {
    hide Chosen, Pending, Vacant;
    HandOverKeeps(s);
    ChosenStable(s.log, [Entry(s)], s.copied);
  }

  lemma LeaveFaithful(s: State)
    requires Inv(s) && Faithful(s) && s.mcu.McuLeaving?
    ensures Inv(Leave(s)) && Faithful(Leave(s))
  {
    hide Pending, Vacant, CpInv;
    LeaveKeeps(s);
    OldestFinished(s);
    var r := |s.copied|;
    if Finished(s.slots[s.mcuIdx]) {
      assert Leave(s).copied[..r] == s.copied;
    }
  }

  lemma CopyFaithful(s: State, n: nat)
    requires Inv(s) && Faithful(s)
    ensures Inv(Apply(s, McuCopy(n))) && Faithful(Apply(s, McuCopy(n)))
    ensures Inv(Apply(s, McuCopied)) && Faithful(Apply(s, McuCopied))
  {
    hide Vacant, CpInv, Chosen;
    CopyKeeps(s, n);
    var r := |s.copied|;
    if s.mcu.McuCopying? {
      assert s.log[r].pcm == s.pcm[SlotOf(s.base, r)];
      assert s.log[r].pcm[..s.loop] == s.log[r].pcm;
    }
  }

  lemma StepFaithful(s: State, step: Step)
    requires Inv(s) && Faithful(s) && !Overruns(s, step)
    ensures Inv(Apply(s, step)) && Faithful(Apply(s, step))
  {
    StepKeeps(s, step);
    hide Pending, Vacant, CpInv, Chosen, Overruns;
    if Enabled(s, step) {
      match step
      case CpDecode(data) => DecodeFaithful(s, data);
      case CpHandOver => HandOverFaithful(s);
      case McuCopy(n) => CopyFaithful(s, n);
      case McuCopied => CopyFaithful(s, 0);
      case McuLeave => LeaveFaithful(s);
      case _ =>
    }
  }

  lemma {:induction false} RunFaithful(init: State, steps: seq<Step>)
    requires Init(init) && NeverOverruns(init, steps)
    ensures Inv(Exec(init, steps)) && Faithful(Exec(init, steps))
  {
    hide Pending, Vacant, CpInv, McuInv, Faithful, Overruns;
    if steps == [] {
      InitInv(init);
    } else {
      RunFaithful(init, steps[..|steps| - 1]);
      StepFaithful(Exec(init, steps[..|steps| - 1]), steps[|steps| - 1]);
    }
  }

  /** Blocks that wait are at every moment as the decoder produced them if and only if no decode runs
      past the end of its slot into the bytes of one. */
  lemma {:induction false} WaitingIntactExactly(init: State, steps: seq<Step>)
    requires Init(init)
    ensures (forall k | 0 <= k <= |steps| :: Waiting(Exec(init, steps[..k]))) <==> NeverOverruns(init, steps)
  {
    hide Apply, Waiting, Overruns;
    if steps == [] {
      InitInv(init);
      assert Waiting(init) by {
        InitWaiting(init);
      }
    } else {
      var n := |steps| - 1;
      var before := steps[..n];
      WaitingIntactExactly(init, before);
      assert steps[..n + 1] == steps;
      assert forall k | 0 <= k <= n :: before[..k] == steps[..k];
      if NeverOverruns(init, before) {
        StepWaiting(init, before, steps[n]);
      }
    }
  }

  lemma InitWaiting(s: State)
    requires Init(s)
    ensures Waiting(s)
  {
  }

  lemma StepWaiting(init: State, before: seq<Step>, step: Step)
    requires Init(init) && NeverOverruns(init, before)
    ensures var s := Exec(init, before); Waiting(Apply(s, step)) <==> !Overruns(s, step)
  {
    RunFaithful(init, before);
    var s := Exec(init, before);
    hide Pending, Vacant, CpInv, McuInv, Chosen, Decode, Exec;
    if Overruns(s, step) {
      hide Overruns, Waiting;
      DecodeWaiting(s, step.data);
    } else {
      StepFaithful(s, step);
    }
  }

  /** In such runs the blocks played are, in order and without repetition, blocks the CP decoded whole
      in one call, byte for byte. */
  lemma PlayedInOrder(init: State, steps: seq<Step>)
    requires Init(init) && NeverOverruns(init, steps)
    ensures var s := Exec(init, steps);
            && |s.copied| <= |s.log|
            && (forall i | 0 <= i < |s.copied| :: s.copied[i] ==> s.log[i].Good?)
            && Chosen(s.log, s.copied) <= s.blocks
            && (s.mcu != McuLeaving(true) ==> s.blocks == Chosen(s.log, s.copied))
  {
    RunFaithful(init, steps);
  }

  /** The CP gives up a call for want of input only before it has decoded anything in it. */
  predicate WholeRetries(init: State, steps: seq<Step>)
    requires init.InRange()
  {
    steps == [] ||
      var before := steps[..|steps| - 1];
      var s := Exec(init, before);
      WholeRetries(init, before) && !(steps[|steps| - 1] == CpRetry && s.cp.CpDecoding? && s.cp.out != [])
  }

  ghost predicate StartsEmpty(s: State)
    requires s.InRange()
  {
    (s.cp.CpDecoding? || s.cp.CpIdle?) && s.slots[s.cpIdx] == WORKING ==> s.outLen[s.cpIdx] == 0
  }

  lemma StepStartsEmpty(s: State, step: Step)
    requires Inv(s) && StartsEmpty(s) && !(step == CpRetry && s.cp.CpDecoding? && s.cp.out != [])
    ensures StartsEmpty(Apply(s, step)) && !Overruns(s, step)
  {
    hide Pending, Vacant, McuInv;
    InvInStep(s);
    InvInStep(Apply(s, step)) by {
      StepKeeps(s, step);
    }
  }

  /** Then no decode overruns, and everything above holds of the run. */
  lemma {:induction false} WholeRetriesNeverOverrun(init: State, steps: seq<Step>)
    requires Init(init) && WholeRetries(init, steps)
    ensures StartsEmpty(Exec(init, steps)) && NeverOverruns(init, steps)
  {
    hide Apply, Overruns;
    if steps != [] {
      var before := steps[..|steps| - 1];
      WholeRetriesNeverOverrun(init, before);
      InitInv(init);
      RunKeeps(init, before);
      hide Inv, StartsEmpty;
      StepStartsEmpty(Exec(init, before), steps[|steps| - 1]);
    }
  }

  /** A slot resumed with PCM of an earlier call in it never becomes a block that is played. */
  lemma ResumedNotGood(init: State, steps: seq<Step>)
    requires Init(init)
    ensures var s := Exec(init, steps);
            s.cp.CpDecoding? && s.outLen[s.cpIdx] > 0 ==>
              var t := Apply(Apply(s, CpClose), CpHandOver);
              t.log == s.log + [if |s.cp.out| == s.loop then TooLong else Bad]
    ensures var s := Exec(init, steps);
            |s.copied| <= |s.log| && forall i | 0 <= i < |s.copied| && s.copied[i] :: s.log[i].Good?
  {
    InitInv(init);
    RunKeeps(init, steps);
    hide Pending, Vacant, Init, Exec;
  }

  // ---------------------------------------------------------------------------------------------
  // When every finished block is played
  // ---------------------------------------------------------------------------------------------

  /** The CP hands over a whole block in the slot the MCU is at. */
  predicate Overtakes(s: State, step: Step)
    requires s.InRange()
  {
    step == CpHandOver && s.cp.CpClosing? && Entry(s).Good? && s.cpIdx == s.mcuIdx
  }

  /** The CP has done so since the MCU last looked at that slot's state. */
  predicate Overtaken(init: State, steps: seq<Step>)
    requires init.InRange()
  {
    steps != [] &&
      var before, step := steps[..|steps| - 1], steps[|steps| - 1];
      var s := Exec(init, before);
      if step == McuLook && Enabled(s, step) then false else Overtaken(init, before) || Overtakes(s, step)
  }

  /** No call of the MCU ends overtaken. */
  predicate NeverLate(init: State, steps: seq<Step>)
    requires init.InRange()
  {
    steps == [] ||
      var before, step := steps[..|steps| - 1], steps[|steps| - 1];
      NeverLate(init, before) &&
      !(step == McuLeave && Enabled(Exec(init, before), step) && Overtaken(init, before))
  }

  /** Every whole block released was played. */
  ghost predicate AllPlayed(s: State) {
    && |s.copied| <= |s.log|
    && forall i | 0 <= i < |s.copied| :: s.copied[i] <==> s.log[i].Good?
  }

  /** An MCU that will not play the oldest finished slot has been overtaken, or there is no whole
      block in it. */
  ghost predicate OvertakenInv(s: State, overtaken: bool)
    requires Inv(s)
  {
    var r := |s.copied|;
    && (s.mcu.McuSawDone? || s.mcu.McuCopying? ==> !overtaken)
    && (s.mcu == McuLeaving(true) ==> !overtaken)
    && (s.mcu == McuLeaving(false) ==> (overtaken <==> r < |s.log| && s.log[r].Good?))
  }

  /** The kind of the slot at the MCU's index tells what became of it. */
  lemma OldestKind(s: State)
    requires Inv(s)
    ensures var r, k := |s.copied|, s.mcuIdx;
            && (Finished(s.slots[k]) <==> r < |s.log|)
            && (s.slots[k] == DONE <==> r < |s.log| && !s.log[r].Bad?)
            && (s.slots[k] == DONE ==> (s.outLen[k] == s.loop <==> s.log[r].Good?))
  {
    OldestFinished(s);
    assert |s.copied| < |s.log| ==> SlotOf(s.base, |s.copied|) == s.mcuIdx;
  }

  lemma StepOvertaken(s: State, step: Step, was: bool, now: bool)
    requires Inv(s) && OvertakenInv(s, was) && Inv(Apply(s, step))
    requires now == if step == McuLook && Enabled(s, step) then false else was || Overtakes(s, step)
    ensures OvertakenInv(Apply(s, step), now)
  {
    hide Pending, Vacant;
    OldestKind(s);
    if s.cp.CpClosing? && s.cpIdx == s.mcuIdx {
      assert |s.copied| == |s.log|;
    } else if s.cp.CpClosing? {
      assert SlotOf(s.base, |s.copied|) != SlotOf(s.base, |s.log|);
    }
  }

  lemma StepPlays(s: State, step: Step, overtaken: bool)
    requires Inv(s) && OvertakenInv(s, overtaken)
    ensures AllPlayed(Apply(s, step))
       <==> AllPlayed(s) && !(step == McuLeave && Enabled(s, step) && overtaken)
  {
    hide Pending, Vacant, CpInv;
    OldestFinished(s);
    var r, t := |s.copied|, Apply(s, step);
    if step == McuLeave && Enabled(s, step) && r < |s.log| {
      assert t.copied == s.copied + [s.mcu.copied];
      assert AllPlayed(t) ==> AllPlayed(s) by {
        assert forall i | 0 <= i < r :: t.copied[i] == s.copied[i];
      }
      assert t.copied[r] == s.mcu.copied;
    } else {
      assert t.copied == s.copied && s.log <= t.log;
    }
  }

  lemma InitOvertaken(s: State)
    requires Init(s)
    ensures Inv(s) && AllPlayed(s) && OvertakenInv(s, false)
  {
  }

  lemma {:induction false} RunOvertaken(init: State, steps: seq<Step>)
    requires Init(init)
    ensures Inv(Exec(init, steps)) && OvertakenInv(Exec(init, steps), Overtaken(init, steps))
    ensures AllPlayed(Exec(init, steps)) <==> NeverLate(init, steps)
  {
    InitInv(init);
    RunKeeps(init, steps);
    hide Pending, Vacant, CpInv, McuInv, AllPlayed, OvertakenInv, Overtakes;
    if steps == [] {
      InitOvertaken(init);
    } else {
      var before := steps[..|steps| - 1];
      RunOvertaken(init, before);
      StepOvertaken(Exec(init, before), steps[|steps| - 1], Overtaken(init, before), Overtaken(init, steps));
      StepPlays(Exec(init, before), steps[|steps| - 1], Overtaken(init, before));
    }
  }

  /** A block is lost exactly when the CP hands it over after the MCU has looked at its slot and
      before that call of the MCU ends. */
  lemma AllPlayedIffNeverLate(init: State, steps: seq<Step>)
    requires Init(init)
    ensures AllPlayed(Exec(init, steps)) <==> NeverLate(init, steps)
  {
    RunOvertaken(init, steps);
  }

  // ---------------------------------------------------------------------------------------------
  // Two runs that go wrong
  // ---------------------------------------------------------------------------------------------

  lemma ExecSnoc(s: State, steps: seq<Step>, step: Step)
    requires s.InRange()
    ensures Exec(s, steps + [step]) == Apply(Exec(s, steps), step)
  {
    hide Apply;
    assert (steps + [step])[..|steps|] == steps;
  }

  lemma ExecOne(s: State, a: Step)
    requires s.InRange()
    ensures Exec(s, [a]) == Apply(s, a)
  {
    ExecSnoc(s, [], a);
    hide Apply;
    assert [] + [a] == [a];
  }

  lemma ExecTwo(s: State, a: Step, b: Step)
    requires s.InRange()
    ensures Exec(s, [a, b]) == Apply(Apply(s, a), b)
  {
    ExecSnoc(s, [], a);
    ExecSnoc(s, [a], b);
    hide Apply;
    assert [] + [a] == [a] && [a] + [b] == [a, b];
  }

  lemma ExecThree(s: State, a: Step, b: Step, c: Step)
    requires s.InRange()
    ensures Exec(s, [a, b, c]) == Apply(Apply(Apply(s, a), b), c)
  {
    ExecTwo(s, a, b);
    ExecSnoc(s, [a, b], c);
    hide Apply, Exec;
    assert [a, b] + [c] == [a, b, c];
  }

  lemma {:induction false} ExecAppend(s: State, a: seq<Step>, b: seq<Step>)
    requires s.InRange()
    ensures Exec(s, a + b) == Exec(Exec(s, a), b)
  {
    if b == [] {
      assert a + b == a;
    } else {
      assert (a + b)[..|a + b| - 1] == a + b[..|b| - 1];
      ExecAppend(s, a, b[..|b| - 1]);
    }
  }

  /** A call of the MCU at a slot that holds a block, up to its second look. */
  function Play(loop: nat): seq<Step> {
    [McuLook, McuCheckLen, McuCopy(loop), McuCopied]
  }

  lemma Plays(s: State)
    requires s.InRange() && s.mcu.McuIdle? && HoldsBlock(s, s.mcuIdx)
    ensures Exec(s, Play(s.loop)) == s.(mcu := McuLeaving(true), blocks := s.blocks + [s.pcm[s.mcuIdx]])
  {
    var b := s.(mcu := McuSawDone);
    var c := s.(mcu := McuCopying([]));
    var d := s.(mcu := McuCopying(s.pcm[s.mcuIdx]));
    assert d == Apply(c, McuCopy(s.loop)) by {
      assert [] + s.pcm[s.mcuIdx][0..s.loop] == s.pcm[s.mcuIdx];
    }
    var e := s.(mcu := McuLeaving(true), blocks := s.blocks + [s.pcm[s.mcuIdx]]);
    assert b == Apply(s, McuLook) && c == Apply(b, McuCheckLen) && e == Apply(d, McuCopied);
    hide Apply, Exec;
    ExecThree(s, McuLook, McuCheckLen, McuCopy(s.loop));
    ExecSnoc(s, [McuLook, McuCheckLen, McuCopy(s.loop)], McuCopied);
    assert Play(s.loop) == [McuLook, McuCheckLen, McuCopy(s.loop)] + [McuCopied];
  }

  /** A first call of the CP in an IDLE slot that decodes `data`. */
  function Fill(data: seq<byte>): seq<Step> {
    [CpBegin, CpClear, CpDecode(data)]
  }

  lemma FirstDecode(s: State, data: seq<byte>)
    requires s.InRange() && s.cp == CpDecoding([]) && |data| <= s.loop && s.outLen[s.cpIdx] == 0
    ensures var k := s.cpIdx;
            Apply(s, CpDecode(data)) == s.(pcm := s.pcm[k := data + s.pcm[k][|data|..]], cp := CpDecoding(data))
  {
    var was := s.pcm[s.cpIdx];
    assert Laid(was, 0, data) == data + was[|data|..] && [] + data == data;
  }

  lemma Fills(s: State, data: seq<byte>)
    requires s.InRange() && s.cp.CpIdle? && s.slots[s.cpIdx] == IDLE && |data| <= s.loop
    ensures var k := s.cpIdx;
            Exec(s, Fill(data)) == s.(slots := s.slots[k := WORKING], outLen := s.outLen[k := 0],
                                      pcm := s.pcm[k := data + s.pcm[k][|data|..]], cp := CpDecoding(data))
  {
    var k := s.cpIdx;
    var b := s.(slots := s.slots[k := WORKING], cp := CpClearing);
    var c := b.(outLen := s.outLen[k := 0], cp := CpDecoding([]));
    var d := c.(pcm := s.pcm[k := data + s.pcm[k][|data|..]], cp := CpDecoding(data));
    assert b == Apply(s, CpBegin) && c == Apply(b, CpClear);
    FirstDecode(c, data);
    hide Apply, Exec;
    ExecThree(s, CpBegin, CpClear, CpDecode(data));
  }

  const FINISH := [CpClose, CpHandOver]

  lemma Finishes(s: State)
    requires s.InRange() && s.cp.CpDecoding? && |s.cp.out| == s.loop && s.outLen[s.cpIdx] == 0
    ensures var k := s.cpIdx;
            Exec(s, FINISH) == s.(slots := s.slots[k := DONE], outLen := s.outLen[k := s.loop],
                                  cpIdx := NextIdx(k), cp := CpIdle, log := s.log + [Good(s.cp.out)])
  {
    var b := s.(outLen := s.outLen[s.cpIdx := s.loop], cp := CpClosing(s.cp.out));
    assert b == Apply(s, CpClose) && HandOver(b) == Apply(b, CpHandOver);
    hide Apply, Exec;
    ExecTwo(s, CpClose, CpHandOver);
  }

  /** A call that runs out of input and the next one, which decodes a whole block behind it. */
  function Resume(data: seq<byte>): seq<Step> {
    [CpRetry, CpBegin, CpDecode(data)]
  }

  lemma SpillingDecode(s: State, data: seq<byte>)
    requires s.InRange() && s.cp == CpDecoding([]) && s.cpIdx + 1 < SLOTS
    requires 0 < s.outLen[s.cpIdx] && |data| == s.loop && HoldsBlock(s, s.cpIdx + 1)
    ensures var k, at := s.cpIdx, s.outLen[s.cpIdx];
            Apply(s, CpDecode(data)) == s.(
              cp := CpDecoding(data),
              pcm := s.pcm[k := Laid(s.pcm[k], at, data)][k + 1 := Laid(s.pcm[k + 1], at - s.loop, data)])
  {
    hide Laid;
    assert [] + data == data;
  }

  lemma RetriesAndBegins(s: State)
    requires s.InRange() && s.cp.CpDecoding? && s.slots[s.cpIdx] == WORKING
    requires s.outLen[s.cpIdx] + |s.cp.out| < s.loop
    ensures Apply(Apply(s, CpRetry), CpBegin)
         == s.(outLen := s.outLen[s.cpIdx := s.outLen[s.cpIdx] + |s.cp.out|], cp := CpDecoding([]))
  {
    assert Apply(s, CpRetry) == s.(outLen := Lengthened(s), cp := CpIdle);
  }

  lemma Resumes(s: State, data: seq<byte>)
    requires s.InRange() && s.cp.CpDecoding? && s.slots[s.cpIdx] == WORKING && s.cpIdx + 1 < SLOTS
    requires s.outLen[s.cpIdx] == 0 < |s.cp.out| < s.loop == |data| && HoldsBlock(s, s.cpIdx + 1)
    ensures var k, at := s.cpIdx, |s.cp.out|;
            Exec(s, Resume(data)) == s.(
              outLen := s.outLen[k := at], cp := CpDecoding(data),
              pcm := s.pcm[k := Laid(s.pcm[k], at, data)][k + 1 := Laid(s.pcm[k + 1], at - s.loop, data)])
  {
    hide Apply, Exec, Laid;
    RetriesAndBegins(s);
    SpillingDecode(s.(outLen := s.outLen[s.cpIdx := |s.cp.out|], cp := CpDecoding([])), data);
    ExecThree(s, CpRetry, CpBegin, CpDecode(data));
  }

  /** A late release is possible: the CP finishes a slot between the MCU's two reads of its state. */
  lemma BlockCanBeLost() returns (init: State, steps: seq<Step>)
    ensures Init(init)
    ensures var s := Exec(init, steps);
            |s.copied| == 2 && |s.log| == 2 && s.log[1].Good? && !s.copied[1]
  {
    init := EXAMPLE;
    Plays(init);
    var missed := ExampleMisses(Exec(init, Play(1)));
    Fills(missed, [9]);
    var filled := Exec(missed, Fill([9]));
    Finishes(filled);
    var done := Exec(filled, FINISH);
    steps := Play(1) + [McuLeave, McuLook] + Fill([9]) + FINISH + [McuLeave];
    hide Apply, Init;
    ExecAppend(init, Play(1) + [McuLeave, McuLook] + Fill([9]) + FINISH, [McuLeave]);
    ExecAppend(init, Play(1) + [McuLeave, McuLook] + Fill([9]), FINISH);
    ExecAppend(init, Play(1) + [McuLeave, McuLook], Fill([9]));
    ExecAppend(init, Play(1), [McuLeave, McuLook]);
    LeavesLate(done);
  }

  /** One-byte blocks, two free slots, one primed slot. */
  const EXAMPLE :=
    State(1, 2, [IDLE, IDLE, DONE], [0, 0, 1], [[7], [7], [7]], 0, 2, CpIdle, McuIdle, [Good([7])], [], [])

  /** The MCU leaves the primed slot and finds the next one IDLE. */
  lemma ExampleMisses(s: State) returns (t: State)
    requires s == EXAMPLE.(mcu := McuLeaving(true), blocks := [[7]])
    ensures Init(EXAMPLE) && t == Exec(s, [McuLeave, McuLook])
    ensures t == s.(slots := [IDLE, IDLE, IDLE], mcuIdx := 0, mcu := McuLeaving(false), copied := [true])
  {
    t := s.(slots := [IDLE, IDLE, IDLE], mcuIdx := 0, mcu := McuLeaving(false), copied := [true]);
    assert Apply(s, McuLeave) == t.(mcu := McuIdle);
    ExecTwo(s, McuLeave, McuLook);
  }

  lemma LeavesLate(s: State)
    requires s.InRange() && s.mcu == McuLeaving(false) && s.slots[s.mcuIdx] == DONE
    ensures Exec(s, [McuLeave]).copied == s.copied + [false] && Exec(s, [McuLeave]).log == s.log
  {
    assert [McuLeave][..0] == [];
  }

  /** The condition of `PlayedInOrder` is needed: a resumed decode can change a block that waits. */
  lemma WaitingBlockSpoiled() returns (init: State, steps: seq<Step>)
    ensures Init(init)
    ensures var s := Exec(init, steps);
            s.log == [Good([7, 7]), Good([8, 8])] && s.mcu == McuLeaving(true) && s.blocks == [[3, 7]]
  {
    init := RESUMED;
    Fills(init, [1]);
    var a := Exec(init, Fill([1]));
    Resumes(a, [2, 3]);
    var b := Exec(a, Resume([2, 3]));
    assert b.pcm[1] == [3, 7];
    Plays(b);
    steps := Fill([1]) + Resume([2, 3]) + Play(2);
    ExecAppend(init, Fill([1]) + Resume([2, 3]), Play(2));
    ExecAppend(init, Fill([1]), Resume([2, 3]));
  }

  /** Two-byte blocks, one free slot, two primed slots. */
  const RESUMED :=
    State(2, 1, [IDLE, DONE, DONE], [0, 2, 2], [[0, 0], [7, 7], [8, 8]], 0, 1, CpIdle, McuIdle,
          [Good([7, 7]), Good([8, 8])], [], [])
}
