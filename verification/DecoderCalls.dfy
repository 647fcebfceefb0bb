/** The functions of the two cores that work on the decoder's slots, and that a call run without
    interruption is a run of the interleaved model's steps. */
module DecoderCalls {
  import opened Bytes
  import opened DecoderSlots

  /** The words the two cores share, without the PCM. */
  datatype Table = Table(slots: seq<SlotState>, outLen: seq<nat>, cpIdx: nat, mcuIdx: nat) {
    predicate Valid() {
      |slots| == |outLen| == SLOTS && cpIdx < SLOTS && mcuIdx < SLOTS
    }
  }

  function TableOf(s: State): Table {
    Table(s.slots, s.outLen, s.cpIdx, s.mcuIdx)
  }

  /** A slot that has been filled by retries starts over. */
  function AfterRoom(t: Table, loop: nat): Table
    requires t.Valid()
  {
    if t.slots[t.cpIdx] == WORKING && t.outLen[t.cpIdx] >= loop then t.(outLen := t.outLen[t.cpIdx := 0]) else t
  }

  /** A slot that is not finished is claimed; an IDLE one starts empty. */
  function AfterBegin(t: Table): Table
    requires t.Valid()
  {
    if t.slots[t.cpIdx] == IDLE then t.(slots := t.slots[t.cpIdx := WORKING], outLen := t.outLen[t.cpIdx := 0]) else t
  }

  function AfterEnd(t: Table, expected: nat, out: nat, retry: bool): Table
    requires t.Valid()
  {
    var u := t.(outLen := t.outLen[t.cpIdx := t.outLen[t.cpIdx] + out]);
    if retry then u
    else u.(slots := t.slots[t.cpIdx := if expected == out then DONE else FAILED], cpIdx := NextIdx(t.cpIdx))
  }

  function AfterProcess(t: Table): Table
    requires t.Valid()
  {
    if Finished(t.slots[t.mcuIdx]) then t.(slots := t.slots[t.mcuIdx := IDLE], mcuIdx := NextIdx(t.mcuIdx)) else t
  }

  /** Where in the output cache the next call of the CP decodes to. */
  function WritePos(t: Table, loop: nat): nat
    requires t.Valid()
  {
    var len := t.outLen[t.cpIdx];
    loop * t.cpIdx + if t.slots[t.cpIdx] == WORKING && len < loop then len else 0
  }

  /** The return value of `mcu_decode_a2dp_process` and the bytes it hands out. */
  function Processed(t: Table, cache: seq<byte>, loop: nat, outMax: nat): (nat, seq<byte>)
    requires t.Valid()
    requires t.slots[t.mcuIdx] == DONE && t.outLen[t.mcuIdx] == outMax ==> loop * t.mcuIdx + outMax <= |cache|
  {
    if t.slots[t.mcuIdx] != DONE then (1, [])
    else if t.outLen[t.mcuIdx] != outMax then (2, [])
    else (0, cache[loop * t.mcuIdx..loop * t.mcuIdx + outMax])
  }

  /** What the calls do to the table, word by word: a slot that is full of retries starts over; an IDLE slot
      becomes WORKING and empty; a call adds its length, and unless it is a retry leaves DONE when it has
      decoded what was asked for, FAILED else, and moves on; a DONE or FAILED slot becomes IDLE and the
      MCU moves on. */
  lemma TableByWord(t: Table, loop: nat, expected: nat, out: nat, retry: bool)
    requires t.Valid()
    ensures var k := t.cpIdx;
            var room, begun, ended := AfterRoom(t, loop), AfterBegin(t), AfterEnd(t, expected, out, retry);
            && room.slots == begun.slots[k := t.slots[k]] == t.slots
            && room.outLen == t.outLen[k := if t.slots[k] == WORKING && t.outLen[k] >= loop then 0 else t.outLen[k]]
            && begun.slots[k] == (if t.slots[k] == IDLE then WORKING else t.slots[k])
            && begun.outLen == t.outLen[k := if t.slots[k] == IDLE then 0 else t.outLen[k]]
            && ended.outLen == t.outLen[k := t.outLen[k] + out]
            && ended.slots == t.slots[k := if retry then t.slots[k] else if out == expected then DONE else FAILED]
            && ended.cpIdx == (if retry then k else (k + 1) % 3)
            && room.cpIdx == begun.cpIdx == k && room.mcuIdx == begun.mcuIdx == ended.mcuIdx == t.mcuIdx
    ensures var k, left := t.mcuIdx, AfterProcess(t);
            var finished := t.slots[k] == DONE || t.slots[k] == FAILED;
            && left.slots == t.slots[k := if finished then IDLE else t.slots[k]]
            && left.mcuIdx == (if finished then (k + 1) % 3 else k)
            && left.outLen == t.outLen && left.cpIdx == t.cpIdx
  {
  }

  class SlotTable {
    const state: array<SlotState>
    const outLen: array<nat>
    const outCache: array<byte>
    const loopSize: nat
    var cpIdx: nat
    var mcuIdx: nat

    ghost predicate Valid()
      reads this
    {
      && state.Length == SLOTS && outLen.Length == SLOTS && outCache.Length == loopSize * SLOTS
      && outLen as object != outCache && cpIdx < SLOTS && mcuIdx < SLOTS
    }

    ghost function View(): Table
      reads this, state, outLen
    {
      Table(state[..], outLen[..], cpIdx, mcuIdx)
    }

    /** `mcu_decode_a2dp_init`: the slots from `mcu_dec_idx` on are primed. */
    constructor (outMax: nat, lhdc: bool)
      ensures Valid() && loopSize == outMax && fresh(state) && fresh(outLen) && fresh(outCache)
      ensures var base := if lhdc then 1 else SLOTS - 1;
              && cpIdx == 0 && mcuIdx == base
              && state[..] == seq(SLOTS, i => if i < base then IDLE else DONE)
              && outLen[..] == seq(SLOTS, i => if i < base then 0 else loopSize)
    {
      state := new SlotState[SLOTS](_ => IDLE);
      outLen := new nat[SLOTS](_ => 0);
      outCache := new byte[outMax * SLOTS](_ => 0);
      loopSize := outMax;
      cpIdx := 0;
      mcuIdx := if lhdc then 1 else SLOTS - 1;
      new;
      var i := mcuIdx;
      while i < SLOTS
        modifies state, outLen
        invariant mcuIdx <= i <= SLOTS
        invariant forall k | 0 <= k < SLOTS :: state[k] == if mcuIdx <= k < i then DONE else IDLE
        invariant forall k | 0 <= k < SLOTS :: outLen[k] == if mcuIdx <= k < i then loopSize else 0
      {
        state[i] := DONE;
        outLen[i] := loopSize;
        i := i + 1;
      }
    }

    /** The start of a round of `cp_a2dp_main`: where in the output cache the next call decodes to. */
    method Room() returns (wpos: nat)
      requires Valid()
      modifies outLen
      ensures Valid() && View() == AfterRoom(old(View()), loopSize)
      ensures wpos == WritePos(old(View()), loopSize)
    {
      var pcmLen := loopSize;
      if state[cpIdx] == WORKING {
        if outLen[cpIdx] < loopSize {
          pcmLen := loopSize - outLen[cpIdx];
        } else {
          outLen[cpIdx] := 0;
        }
      }
      wpos := loopSize * cpIdx + loopSize - pcmLen;
    }

    /** `cp_decode_a2dp_begin`. */
    method Begin() returns (ret: nat)
      requires Valid()
      modifies state, outLen
      ensures Valid()
      ensures ret == if Finished(old(state[cpIdx])) then 1 else 0
      ensures View() == AfterBegin(old(View()))
    {
      if state[cpIdx] != IDLE && state[cpIdx] != WORKING {
        return 1;
      }
      if state[cpIdx] == IDLE {
        state[cpIdx] := WORKING;
        outLen[cpIdx] := 0;
      }
      return 0;
    }

    /** `cp_decode_a2dp_end`. */
    method End(expected: nat, out: nat, retry: bool)
      requires Valid()
      modifies this, state, outLen
      ensures Valid() && View() == AfterEnd(old(View()), expected, out, retry)
    {
      outLen[cpIdx] := outLen[cpIdx] + out;
      if !retry {
        if expected == out {
          state[cpIdx] := DONE;
        } else {
          state[cpIdx] := FAILED;
        }
        cpIdx := cpIdx + 1;
        if cpIdx >= SLOTS {
          cpIdx := 0;
        }
      }
    }

    /** `mcu_decode_a2dp_process`, run without the CP in between. */
    method Process(outMax: nat) returns (ret: nat, out: seq<byte>)
      requires Valid()
      requires state[mcuIdx] == DONE && outLen[mcuIdx] == outMax ==> loopSize * mcuIdx + outMax <= outCache.Length
      modifies this, state
      ensures Valid() && View() == AfterProcess(old(View()))
      ensures (ret, out) == Processed(old(View()), outCache[..], loopSize, outMax)
    {
      ret, out := 0, [];
      if state[mcuIdx] != DONE {
        ret := 1;
      } else if outLen[mcuIdx] != outMax {
        ret := 2;
      } else {
        var rpos := loopSize * mcuIdx;
        out := outCache[rpos..rpos + outMax];
      }
      if state[mcuIdx] == DONE || state[mcuIdx] == FAILED {
        state[mcuIdx] := IDLE;
        mcuIdx := mcuIdx + 1;
        if mcuIdx >= SLOTS {
          mcuIdx := 0;
        }
      }
    }
  }

  /** `cp_out_cache`: the slots, one behind the other. */
  function Flat(pcm: seq<seq<byte>>): seq<byte>
    requires |pcm| == SLOTS
  {
    pcm[0] + pcm[1] + pcm[2]
  }

  lemma FlatSlot(pcm: seq<seq<byte>>, loop: nat, k: nat)
    requires |pcm| == SLOTS && k < SLOTS && forall i | 0 <= i < SLOTS :: |pcm[i]| == loop
    ensures |Flat(pcm)| == loop * SLOTS && loop * k + loop <= |Flat(pcm)|
    ensures Flat(pcm)[loop * k..loop * k + loop] == pcm[k]
  {
    var at := if k == 0 then 0 else if k == 1 then loop else loop + loop;
    assert loop * k == at;
    assert Flat(pcm)[at..at + loop] == pcm[k];
  }

  /** A call of the CP decodes to where `Room` says, whatever retries have left in the slot. */
  lemma BeginIsSteps(s: State)
    requires Inv(s) && s.cp.CpIdle? && !Finished(s.slots[s.cpIdx])
    ensures var t := Apply(Apply(s, CpBegin), CpClear);
            && t.cp == CpDecoding([]) && TableOf(t) == AfterBegin(AfterRoom(TableOf(s), s.loop))
            && s.loop * t.cpIdx + t.outLen[t.cpIdx] == WritePos(TableOf(s), s.loop)
  {
    hide Pending, Vacant, McuInv;
  }

  lemma LaidSplit(a: seq<byte>, b: seq<byte>, at: int, data: seq<byte>)
    ensures Laid(a + b, at, data) == Laid(a, at, data) + Laid(b, at - |a|, data)
  {
  }

  lemma LaidBeside(was: seq<byte>, at: int, data: seq<byte>)
    requires at >= |was| || at + |data| <= 0
    ensures Laid(was, at, data) == was
  {
  }

  lemma LaidFlat(pcm: seq<seq<byte>>, loop: nat, at: int, data: seq<byte>)
    requires |pcm| == SLOTS && forall i | 0 <= i < SLOTS :: |pcm[i]| == loop
    ensures Laid(Flat(pcm), at, data)
         == Laid(pcm[0], at, data) + Laid(pcm[1], at - loop, data) + Laid(pcm[2], at - loop - loop, data)
  {
    LaidSplit(pcm[0] + pcm[1], pcm[2], at, data);
    LaidSplit(pcm[0], pcm[1], at, data);
  }

  /** And what it decodes lies one behind the other in the cache from there on. */
  lemma DecodeIsWrite(s: State, data: seq<byte>)
    requires Inv(s) && Enabled(s, CpDecode(data))
    ensures var wpos := s.loop * s.cpIdx + s.outLen[s.cpIdx];
            Flat(Decode(s, data).pcm) == Laid(Flat(s.pcm), wpos + |s.cp.out|, data)
  {
    hide Pending, Vacant, McuInv, Laid;
    var k, at := s.cpIdx, s.outLen[s.cpIdx] + |s.cp.out|;
    var off := if k == 0 then 0 else if k == 1 then s.loop else s.loop + s.loop;
    assert s.loop * k == off;
    LaidFlat(s.pcm, s.loop, off + at, data);
    if k > 0 {
      LaidBeside(s.pcm[0], off + at, data);
    }
    if k > 1 {
      LaidBeside(s.pcm[1], off + at - s.loop, data);
    }
    if k < 2 && at + |data| <= s.loop {
      LaidBeside(s.pcm[k + 1], at - s.loop, data);
    }
    if k == 0 {
      LaidBeside(s.pcm[2], at - s.loop - s.loop, data);
    }
  }

  /** The steps of a call of the MCU, up to its second look. */
  function McuCall(s: State): seq<Step>
    requires s.InRange()
  {
    if s.slots[s.mcuIdx] != DONE then [McuLook]
    else if s.outLen[s.mcuIdx] != s.loop then [McuLook, McuCheckLen]
    else Play(s.loop)
  }

  lemma CallDecides(s: State)
    requires s.InRange() && s.mcu.McuIdle?
    ensures var plays := HoldsBlock(s, s.mcuIdx);
            Exec(s, McuCall(s)) == s.(mcu := McuLeaving(plays),
                                      blocks := s.blocks + if plays then [s.pcm[s.mcuIdx]] else [])
  {
    hide Begin, Decode, HandOver, Leave, Exec;
    assert s.blocks + [] == s.blocks;
    if s.slots[s.mcuIdx] != DONE {
      ExecOne(s, McuLook);
    } else if s.outLen[s.mcuIdx] != s.loop {
      ExecTwo(s, McuLook, McuCheckLen);
    } else {
      Plays(s);
    }
  }

  lemma ProcessedIs(s: State)
    requires s.InRange()
    ensures s.loop * s.mcuIdx + s.loop <= |Flat(s.pcm)|
    ensures Processed(TableOf(s), Flat(s.pcm), s.loop, s.loop)
         == if s.slots[s.mcuIdx] != DONE then (1, []) else if s.outLen[s.mcuIdx] != s.loop then (2, [])
            else (0, s.pcm[s.mcuIdx])
  {
    FlatSlot(s.pcm, s.loop, s.mcuIdx);
  }

  /** `mcu_decode_a2dp_process`, run without interruption, is these steps: the table, the bytes handed out
      and what becomes of the slot. */
  lemma ProcessIsSteps(s: State)
    requires s.InRange() && s.mcu.McuIdle?
    ensures var t := Exec(s, McuCall(s) + [McuLeave]);
            s.loop * s.mcuIdx + s.loop <= |Flat(s.pcm)| &&
            var (ret, out) := Processed(TableOf(s), Flat(s.pcm), s.loop, s.loop);
            && t.mcu.McuIdle? && TableOf(t) == AfterProcess(TableOf(s)) && t.pcm == s.pcm
            && t.blocks == s.blocks + (if ret == 0 then [out] else [])
            && t.copied == s.copied + (if Finished(s.slots[s.mcuIdx]) then [ret == 0] else [])
  {
    ProcessedIs(s);
    CallDecides(s);
    ExecSnoc(s, McuCall(s), McuLeave);
    hide Exec, McuCall, Flat, Processed;
    assert s.copied + [] == s.copied;
  }

  /** The other calls of the CP. */
  lemma EndIsSteps(s: State)
    requires Inv(s) && s.cp.CpDecoding?
    ensures TableOf(Apply(s, CpRetry)) == AfterEnd(TableOf(s), s.loop, |s.cp.out|, true)
    ensures TableOf(Apply(Apply(s, CpClose), CpHandOver)) == AfterEnd(TableOf(s), s.loop, |s.cp.out|, false)
  {
    hide Pending, Vacant, McuInv, CpInv;
  }
}
