/** The calls of the speech pipeline: in every interleaving what the algorithm is fed are the blocks of the
    calls made, one by one, each with its reference or the last one given before. */
module ScoCalls {
  import opened Helpers
  import opened ScoPipeline

  /** A call's samples and, if there is one, its reference. */
  datatype Request = Request(pcm: seq<int>, ref: Option<seq<int>>)

  /** The calls made in a run: those that begin while no other is under way. */
  ghost function Requests(c: Config, algo: Algo, steps: seq<Step>): seq<Request>
    requires c.Valid() && Fits(algo)
  {
    if steps == [] then []
    else
      var before, step := steps[..|steps| - 1], steps[|steps| - 1];
      Requests(c, algo, before)
      + if step.Call? && Run(c, algo, before).mcu == MIdle && Legal(c, step.pcm, step.ref)
        then [Request(step.pcm, step.ref)] else []
  }

  /** The reference last given, silence before any was. */
  function LastRef(frameLen: nat, calls: seq<Request>): seq<int> {
    if calls == [] then Repeat(0, frameLen)
    else
      var last := calls[|calls| - 1];
      if last.ref.Some? then last.ref.value else LastRef(frameLen, calls[..|calls| - 1])
  }

  function Blocks(frameLen: nat, calls: seq<Request>): (blocks: seq<Block>)
    ensures |blocks| == |calls|
  {
    if calls == [] then []
    else Blocks(frameLen, calls[..|calls| - 1]) + [Block(calls[|calls| - 1].pcm, LastRef(frameLen, calls))]
  }

  predicate Entering(pc: McuPc) {
    pc == MWait || pc == MIn || pc == MRef
  }

  /** `calls` have been made; all of them are fed but one that is just going in. */
  ghost predicate FedFrom(c: Config, s: State, calls: seq<Request>)
    requires c.Valid() && s.sh.Valid()
  {
    var n := |calls|;
    if Entering(s.mcu) then
      && n > 0 && calls[n - 1] == Request(s.pcm, s.ref)
      && s.fed == Blocks(c.frameLen, calls[..n - 1])
      && s.sh.refBuf[..c.frameLen] == LastRef(c.frameLen, calls[..n - 1])
    else s.fed == Blocks(c.frameLen, calls) && s.sh.refBuf[..c.frameLen] == LastRef(c.frameLen, calls)
  }

  lemma StartFed(c: Config)
    requires c.Valid()
    ensures FedFrom(c, StartState(c), [])
    ensures forall i | 0 <= i < 512 :: StartState(c).sh.inBuf[i] == 0
  {
  }

  lemma CallFed(c: Config, algo: Algo, s: State, step: Step, calls: seq<Request>)
    requires c.Valid() && Fits(algo) && Inv(c, algo, s) && FedFrom(c, s, calls) && step.Call?
    ensures var t := Apply(c, algo, s, step);
            var made := s.mcu == MIdle && Legal(c, step.pcm, step.ref);
            t.sh.Valid() && FedFrom(c, t, calls + if made then [Request(step.pcm, step.ref)] else [])
  {
    hide Results, McuData, CpData, Counts, Fits;
    var more := calls + [Request(step.pcm, step.ref)];
    assert more[..|more| - 1] == calls && calls + [] == calls;
  }

  lemma McuFed(c: Config, algo: Algo, s: State, calls: seq<Request>)
    requires c.Valid() && Inv(c, algo, s) && FedFrom(c, s, calls)
    ensures FedFrom(c, McuStep(c, s), calls)
  {
    hide Results, McuData, CpData, Counts;
    if s.mcu == MRef {
      var r := NewRef(c, s.sh, s.ref);
      assert s.ref.Some? ==> r[..c.frameLen] == s.ref.value;
    }
  }

  lemma CpFed(c: Config, algo: Algo, s: State, calls: seq<Request>)
    requires c.Valid() && Fits(algo) && Inv(c, algo, s) && FedFrom(c, s, calls)
    ensures CpStep(c, algo, s).sh.Valid() && FedFrom(c, CpStep(c, algo, s), calls)
  {
    CpKeeps(c, algo, s);
    hide Results, McuData, CpData, Counts, Fits;
  }

  lemma {:induction false} RunFed(c: Config, algo: Algo, steps: seq<Step>)
    requires c.Valid() && Fits(algo)
    ensures FedFrom(c, Run(c, algo, steps), Requests(c, algo, steps))
  {
    hide Inv, FedFrom, McuStep, CpStep, Fits;
    if steps == [] {
      StartFed(c);
    } else {
      var before, step := steps[..|steps| - 1], steps[|steps| - 1];
      RunFed(c, algo, before);
      var s, calls := Run(c, algo, before), Requests(c, algo, before);
      assert calls + [] == calls;
      match step {
        case Call(_, _) => CallFed(c, algo, s, step, calls);
        case Mcu => McuFed(c, algo, s, calls);
        case Cp => CpFed(c, algo, s, calls);
      }
    }
  }

  /** In every interleaving the blocks fed are those of the calls made, in order, and the outputs what the
      algorithm made of the calls before. */
  lemma OutputsOfCalls(c: Config, algo: Algo, steps: seq<Step>, k: nat)
    requires c.Valid() && Fits(algo) && k < |Run(c, algo, steps).outs|
    ensures var s, calls := Run(c, algo, steps), Requests(c, algo, steps);
            && |s.fed| <= |calls| <= |s.fed| + 1 && k < |calls|
            && (s.mcu == MIdle ==> |calls| == |s.fed| == |s.outs|)
            && s.outs[k] == if k == 0 then Repeat(0, c.frameLen) else algo(Blocks(c.frameLen, calls)[..k])
  {
    RunFed(c, algo, steps);
    OutputsAreOneFrameLate(c, algo, steps, k);
    var s, calls := Run(c, algo, steps), Requests(c, algo, steps);
    IdleFed(c, algo, s);
    hide Inv, Run, Requests;
    if Entering(s.mcu) {
      var n := |calls| - 1;
      assert Blocks(c.frameLen, calls)[..n] == Blocks(c.frameLen, calls[..n]);
      assert Blocks(c.frameLen, calls)[..k] == Blocks(c.frameLen, calls[..n])[..k];
    }
  }

  lemma IdleFed(c: Config, algo: Algo, s: State)
    requires c.Valid() && Inv(c, algo, s)
    ensures s.mcu == MIdle ==> |s.fed| == |s.outs|
  {
  }
}
