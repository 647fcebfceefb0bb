/** Reassembly of LHDC payloads from numbered A2DP packets (`assemble_lhdc_packet`).

    A payload travels either alone in one packet without fragment flags, or cut into fragments, of
    which the first carries the S flag and the last the L flag. Packets are numbered modulo 256. */
module LhdcAssembler {
  import opened Bytes

  const BUFFER := 4 * 1024

  /** The fragment flags of the header byte, the number, and the bytes behind both. */
  datatype Packet = Packet(f: bool, s: bool, l: bool, seqno: byte, payload: seq<byte>)

  /** The flag bits 0x80, 0x40 and 0x20 of the header byte. */
  function Decode(input: seq<byte>): Packet
    requires |input| >= 2
  {
    Packet(input[0] >= 0x80, HasBit(input[0], 0x40), HasBit(input[0], 0x20), input[1], input[2..])
  }

  predicate HasBit(hdr: byte, mask: byte)
    requires mask > 0
  {
    (hdr / mask) % 2 == 1
  }

  predicate Single(p: Packet) {
    !p.f && !p.s && !p.l
  }

  function Next(seqno: byte): byte {
    if seqno == 0xff then 0 else seqno + 1
  }

  function Payloads(ps: seq<Packet>): seq<byte> {
    if ps == [] then [] else Payloads(ps[..|ps| - 1]) + ps[|ps| - 1].payload
  }

  // ---------------------------------------------------------------------------------------------
  // One packet
  // ---------------------------------------------------------------------------------------------

  /** `open` is the state ASM_PKT_WAT_LST, `!open` is ASM_PKT_WAT_STR. */
  datatype Asm = Asm(synced: bool, serial: byte, open: bool, buf: seq<byte>)

  datatype Result = Rejected | Nothing | Complete(payload: seq<byte>)

  const RESET := Asm(false, 0xff, false, [])

  function Step(a: Asm, p: Packet): (Asm, Result) {
    if a.synced && p.seqno != a.serial then
      var r := a.(synced := false, open := false, buf := []);
      if Single(p) || p.s then Collect(r, p) else (r, Nothing)
    else Collect(if a.synced then a.(serial := Next(p.seqno)) else a, p)
  }

  function Collect(a: Asm, p: Packet): (Asm, Result) {
    if !a.open then
      if Single(p) then (Synced(a.(buf := []), p), Complete(p.payload))
      else if p.s then
        if |a.buf| + |p.payload| >= BUFFER then (a.(buf := []), Nothing)
        else (Synced(a.(open := true, buf := p.payload), p), Nothing)
      else (a, Rejected)
    else
      if |a.buf| + |p.payload| >= BUFFER then (a.(open := false, buf := []), Rejected)
      else if p.l then (a.(open := false, buf := []), Complete(a.buf + p.payload))
      else (a.(buf := a.buf + p.payload), Nothing)
  }

  function Synced(a: Asm, p: Packet): Asm {
    if a.synced then a else a.(synced := true, serial := Next(p.seqno))
  }

  function Run(a: Asm, ps: seq<Packet>): Asm {
    if ps == [] then a else Step(Run(a, ps[..|ps| - 1]), ps[|ps| - 1]).0
  }

  function Outputs(a: Asm, ps: seq<Packet>): seq<seq<byte>> {
    if ps == [] then []
    else
      var init := ps[..|ps| - 1];
      match Step(Run(a, init), ps[|ps| - 1]).1
      case Complete(out) => Outputs(a, init) + [out]
      case _ => Outputs(a, init)
  }

  lemma SingleByHeader(input: seq<byte>)
    requires |input| >= 2
    ensures Single(Decode(input)) <==> input[0] < 0x20
  {
  }

  class Assembler {
    const packetBuffer: array<byte>
    var isSynced: bool
    var serialNo: byte
    var waitLast: bool
    var packetBufLen: nat

    ghost predicate Valid()
      reads this
    {
      packetBuffer.Length == BUFFER && packetBufLen <= BUFFER
    }

    ghost function View(): Asm
      reads this, packetBuffer
      requires Valid()
    {
      Asm(isSynced, serialNo, waitLast, packetBuffer[..packetBufLen])
    }

    /** `initial_lhdc_assemble_packet`. */
    constructor ()
      ensures Valid() && fresh(packetBuffer) && View() == RESET
    {
      packetBuffer := new byte[BUFFER](_ => 0);
      isSynced, waitLast, packetBufLen, serialNo := false, false, 0, 0xff;
    }

    /** `reset_lhdc_assmeble_packet`. */
    method Reset()
      requires Valid()
      modifies this
      ensures Valid() && View() == Asm(false, old(serialNo), false, [])
    {
      isSynced, waitLast, packetBufLen := false, false, 0;
    }

    /** `memcpy` into `packet_buffer`. */
    method Put(at: nat, data: seq<byte>)
      requires at + |data| <= packetBuffer.Length
      modifies packetBuffer
      ensures packetBuffer[..at + |data|] == old(packetBuffer[..at]) + data
    {
      forall i | 0 <= i < |data| {
        packetBuffer[at + i] := data[i];
      }
    }

    /** The second half of `assemble_lhdc_packet`: the state machine proper. */
    method Assembled(hdr: byte, seqno: byte, payload: seq<byte>, ghost p: Packet) returns (ret: int, out: seq<byte>)
      requires Valid() && p == Packet(hdr >= 0x80, HasBit(hdr, 0x40), HasBit(hdr, 0x20), seqno, payload)
      requires Single(p) <==> hdr < 0x20
      requires Single(p) ==> |payload| <= BUFFER
      modifies this, packetBuffer
      ensures Valid() && View() == Collect(old(View()), p).0
      ensures var r := Collect(old(View()), p).1;
              && (r.Rejected? ==> ret == -1) && (r.Nothing? ==> ret == 0)
              && (r.Complete? ==> ret == 1 && out == r.payload)
    {
      out, ret := [], -1;
      if !waitLast {
        if hdr < 0x20 {
          Put(0, payload);
          out := packetBuffer[..|payload|];
          packetBufLen := 0;
          ret := 1;
        } else if HasBit(hdr, 0x40) {
          ret := 0;
          if packetBufLen + |payload| >= BUFFER {
            packetBufLen := 0;
            return;
          }
          Put(0, payload);
          packetBufLen := |payload|;
          waitLast := true;
        }
        if ret >= 0 {
          if !isSynced {
            isSynced, serialNo := true, Next(seqno);
          }
        }
      } else {
        if packetBufLen + |payload| >= BUFFER {
          packetBufLen, waitLast := 0, false;
          return;
        }
        Put(packetBufLen, payload);
        packetBufLen := packetBufLen + |payload|;
        ret := 0;
        if HasBit(hdr, 0x20) {
          out := packetBuffer[..packetBufLen];
          packetBufLen, waitLast, ret := 0, false, 1;
        }
      }
    }

    /** `assemble_lhdc_packet`. The single-packet path copies without a bound check, so the caller
        must keep such a payload within the buffer. */
    method Assemble(input: seq<byte>) returns (ret: int, out: seq<byte>)
      requires Valid() && |input| >= 2
      requires Single(Decode(input)) ==> |input| - 2 <= BUFFER
      modifies this, packetBuffer
      ensures Valid()
      ensures var r := Step(old(View()), Decode(input));
              && View() == r.0 && (r.1.Rejected? ==> ret == -1) && (r.1.Nothing? ==> ret == 0)
              && (r.1.Complete? ==> ret == 1 && out == r.1.payload)
    {
      hide HasBit, Collect;
      var hdr, seqno, payload := input[0], input[1], input[2..];
      SingleByHeader(input);
      out := [];
      if isSynced {
        if seqno != serialNo {
          Reset();
          if !(hdr < 0x20 || HasBit(hdr, 0x40)) {
            return 0, out;
          }
        } else {
          serialNo := Next(seqno);
        }
      }
      ret, out := Assembled(hdr, seqno, payload, Decode(input));
    }
  }

  // ---------------------------------------------------------------------------------------------
  // Soundness: what is in the buffer and what comes out
  // ---------------------------------------------------------------------------------------------

  /** The packets from `lo` on are an unfinished fragmentation: S first, consecutive numbers, no L
      since. */
  predicate Fragments(ps: seq<Packet>, lo: nat) {
    && lo < |ps| && ps[lo].s
    && (forall i | lo < i < |ps| :: ps[i].seqno == Next(ps[i - 1].seqno))
    && (forall i | lo < i < |ps| :: !ps[i].l)
  }

  /** The state after the packets `ps` received since the reset. */
  ghost predicate Explained(a: Asm, ps: seq<Packet>) {
    && (a.synced ==> ps != [] && a.serial == Next(ps[|ps| - 1].seqno))
    && (!a.open ==> a.buf == [])
    && (a.open ==> a.synced && |a.buf| < BUFFER && exists lo: nat :: Fragments(ps, lo) && a.buf == Payloads(ps[lo..]))
  }

  /** An output is one unfragmented payload, or the concatenation from an S packet to the first L. */
  ghost predicate Justified(ps: seq<Packet>, p: Packet, out: seq<byte>) {
    || (Single(p) && out == p.payload)
    || (&& p.l && |out| < BUFFER
        && exists lo: nat ::
             Fragments(ps, lo) && p.seqno == Next(ps[|ps| - 1].seqno) && out == Payloads(ps[lo..] + [p]))
  }

  lemma PayloadsSnoc(ps: seq<Packet>, p: Packet)
    ensures Payloads(ps + [p]) == Payloads(ps) + p.payload
  {
    assert (ps + [p])[..|ps|] == ps;
  }

  lemma FragmentsGrow(ps: seq<Packet>, lo: nat, p: Packet)
    requires Fragments(ps, lo) && p.seqno == Next(ps[|ps| - 1].seqno)
    ensures Payloads(ps[lo..] + [p]) == Payloads(ps[lo..]) + p.payload
    ensures (ps + [p])[lo..] == ps[lo..] + [p]
    ensures !p.l ==> Fragments(ps + [p], lo)
  {
    PayloadsSnoc(ps[lo..], p);
  }

  lemma FragmentsStart(ps: seq<Packet>, p: Packet)
    requires p.s
    ensures Fragments(ps + [p], |ps|)
    ensures Payloads((ps + [p])[|ps|..]) == p.payload
  {
    var grown := ps + [p];
    assert grown[|ps|] == p && |grown| == |ps| + 1;
    PayloadsSnoc([], p);
    hide Payloads;
    assert grown[|ps|..] == [] + [p];
    assert [] + p.payload == p.payload;
  }

  lemma StepExplained(a: Asm, ps: seq<Packet>, p: Packet)
    requires Explained(a, ps)
    ensures Explained(Step(a, p).0, ps + [p])
    ensures Step(a, p).1.Complete? ==> Justified(ps, p, Step(a, p).1.payload)
  {
    if a.open && p.seqno == a.serial {
      var lo: nat :| Fragments(ps, lo) && a.buf == Payloads(ps[lo..]);
      FragmentsGrow(ps, lo, p);
    } else if p.s {
      FragmentsStart(ps, p);
    }
  }

  /** Over every packet sequence: the state is explained by the packets since the last S, and every
      payload handed on is justified by the packets before it. */
  lemma {:induction false} RunExplained(ps: seq<Packet>)
    ensures Explained(Run(RESET, ps), ps)
    ensures forall k | 0 <= k < |ps| ::
              var r := Step(Run(RESET, ps[..k]), ps[k]).1;
              r.Complete? ==> Justified(ps[..k], ps[k], r.payload)
  {
    if ps != [] {
      var n := |ps| - 1;
      RunExplained(ps[..n]);
      StepExplained(Run(RESET, ps[..n]), ps[..n], ps[n]);
      hide Step, Explained, Justified;
      assert ps[..n] + [ps[n]] == ps;
      forall k | 0 <= k < |ps|
        ensures var r := Step(Run(RESET, ps[..k]), ps[k]).1;
                r.Complete? ==> Justified(ps[..k], ps[k], r.payload)
      {
        if k < n {
          assert ps[..n][..k] == ps[..k];
        }
      }
    }
  }

  // ---------------------------------------------------------------------------------------------
  // Completeness: a well-formed fragmentation comes back
  // ---------------------------------------------------------------------------------------------

  /** The packets that carry one payload. */
  predicate Carries(g: seq<Packet>, payload: seq<byte>) {
    && g != [] && Payloads(g) == payload && |payload| < BUFFER
    && (forall i | 0 < i < |g| :: g[i].seqno == Next(g[i - 1].seqno))
    && if |g| == 1 then Single(g[0])
       else g[0].s && g[|g| - 1].l && forall i | 0 < i < |g| - 1 :: !g[i].l
  }

  /** A stream of payloads, with numbers that run on from one payload to the next. */
  predicate Stream(groups: seq<seq<Packet>>, payloads: seq<seq<byte>>) {
    && |groups| == |payloads|
    && (forall i | 0 <= i < |groups| :: Carries(groups[i], payloads[i]))
    && (forall i | 0 < i < |groups| :: groups[i][0].seqno == Next(Last(groups[i - 1]).seqno))
  }

  function Last(g: seq<Packet>): Packet
    requires g != []
  {
    g[|g| - 1]
  }

  function Flat(groups: seq<seq<Packet>>): seq<Packet> {
    if groups == [] then [] else Flat(groups[..|groups| - 1]) + groups[|groups| - 1]
  }

  /** Not in the middle of a payload that would swallow a packet numbered `s`. */
  predicate ReadyFor(a: Asm, s: byte) {
    && (!a.open ==> a.buf == [])
    && (a.open ==> a.synced && a.serial != s)
  }

  predicate Between(a: Asm, next: byte) {
    a.synced && !a.open && a.buf == [] && a.serial == next
  }

  lemma {:induction false} PayloadsLength(g: seq<Packet>, k: nat)
    requires k <= |g|
    ensures |Payloads(g[..k])| <= |Payloads(g)|
    decreases |g| - k
  {
    if k < |g| {
      PayloadsLength(g, k + 1);
      assert g[..k + 1][..k] == g[..k];
    } else {
      assert g[..k] == g;
    }
  }

  /** After the first `k` packets of a fragmented payload they are all in the buffer. */
  lemma {:induction false} FragmentsCollect(a: Asm, g: seq<Packet>, payload: seq<byte>, k: nat)
    requires Carries(g, payload) && ReadyFor(a, g[0].seqno) && 1 <= k < |g|
    ensures Run(a, g[..k]) == Asm(true, Next(g[k - 1].seqno), true, Payloads(g[..k]))
    ensures Outputs(a, g[..k]) == []
    decreases k
  {
    PayloadsLength(g, k);
    if k == 1 {
      assert g[..1][..0] == [];
      assert !Single(g[0]);
    } else {
      FragmentsCollect(a, g, payload, k - 1);
      assert g[..k][..k - 1] == g[..k - 1];
    }
  }

  lemma GroupComesBack(a: Asm, g: seq<Packet>, payload: seq<byte>)
    requires Carries(g, payload) && ReadyFor(a, g[0].seqno)
    ensures Between(Run(a, g), Next(Last(g).seqno)) && Outputs(a, g) == [payload]
  {
    var n := |g| - 1;
    assert g[..n + 1] == g;
    if n == 0 {
      assert g[..0] == [];
      assert Payloads(g) == [] + g[0].payload == g[0].payload;
    } else {
      FragmentsCollect(a, g, payload, n);
    }
  }

  lemma {:induction false} RunAppend(a: Asm, ps: seq<Packet>, qs: seq<Packet>)
    ensures Run(a, ps + qs) == Run(Run(a, ps), qs)
    ensures Outputs(a, ps + qs) == Outputs(a, ps) + Outputs(Run(a, ps), qs)
  {
    hide Step;
    if qs == [] {
      assert ps + qs == ps;
    } else {
      var m := |qs| - 1;
      assert (ps + qs)[..|ps| + m] == ps + qs[..m];
      RunAppend(a, ps, qs[..m]);
    }
  }

  lemma StreamPrefix(groups: seq<seq<Packet>>, payloads: seq<seq<byte>>)
    requires Stream(groups, payloads) && groups != []
    ensures Stream(groups[..|groups| - 1], payloads[..|groups| - 1])
    ensures payloads == payloads[..|groups| - 1] + [payloads[|groups| - 1]]
  {
  }

  /** A well-formed stream of payloads is handed on payload by payload. */
  lemma {:induction false} StreamComesBack(a: Asm, groups: seq<seq<Packet>>, payloads: seq<seq<byte>>)
    requires Stream(groups, payloads)
    requires groups != [] ==> ReadyFor(a, groups[0][0].seqno)
    ensures Outputs(a, Flat(groups)) == payloads
    ensures groups != [] ==> Between(Run(a, Flat(groups)), Next(Last(groups[|groups| - 1]).seqno))
  {
    if groups != [] {
      var n := |groups| - 1;
      StreamPrefix(groups, payloads);
      var before := Flat(groups[..n]);
      StreamComesBack(a, groups[..n], payloads[..n]);
      var g := groups[n];
      assert ReadyFor(Run(a, before), g[0].seqno) by {
        if n > 0 {
          assert groups[..n][n - 1] == groups[n - 1];
        } else {
          assert groups[..n] == [];
        }
      }
      GroupComesBack(Run(a, before), g, payloads[n]);
      RunAppend(a, before, g);
    }
  }

  /** In the middle of a payload whose next packet would be numbered `s`. */
  predicate WaitsFor(a: Asm, s: byte) {
    a.open && a.serial == s
  }

  /** And a payload in these packets is taken for its continuation. Only a fragmented one that is put
      behind nothing survives that. */
  predicate Swallows(a: Asm, g: seq<Packet>)
    requires g != []
  {
    WaitsFor(a, g[0].seqno) && (|g| == 1 || a.buf != [])
  }

  /** Of `total` payload bytes, `gap` have gone without leaving a trace in buffer or output. */
  ghost predicate Missing(gap: nat, buf: seq<byte>, outs: seq<seq<byte>>, total: nat) {
    |buf| + gap <= total && forall o | o in outs :: |o| + gap <= total
  }

  /** The payload bytes `more` stand behind what `a` holds, and the packet `seqno` is waited for. */
  ghost predicate Behind(a: Asm, b: Asm, seqno: byte, more: seq<byte>) {
    |a.buf + more| < BUFFER && b == Asm(true, seqno, true, a.buf + more)
  }

  lemma OutputsSnoc(a: Asm, g: seq<Packet>, k: nat)
    requires k < |g|
    ensures var r := Step(Run(a, g[..k]), g[k]);
            && Run(a, g[..k + 1]) == r.0
            && Outputs(a, g[..k + 1]) == Outputs(a, g[..k]) + (if r.1.Complete? then [r.1.payload] else [])
            && Payloads(g[..k + 1]) == Payloads(g[..k]) + g[k].payload
  {
    hide Step;
    assert g[..k + 1][..k] == g[..k];
  }

  /** The packets before the last one are marked as fragments, and not as last. */
  predicate Marked(g: seq<Packet>) {
    forall j | 0 <= j < |g| - 1 :: !g[j].l && !Single(g[j])
  }

  /** A packet that is not the last puts itself behind an unfinished payload, or is lost with it. */
  lemma FragmentSwallowed(a: Asm, b: Asm, p: Packet, outs: seq<seq<byte>>, before: seq<byte>)
    requires !p.l && !Single(p) && |a.buf| < BUFFER
    requires (Behind(a, b, p.seqno, before) && outs == []) || Missing(BUFFER - |a.buf|, b.buf, outs, |before|)
    ensures var (c, r) := Step(b, p);
            && !r.Complete?
            && ((Behind(a, c, Next(p.seqno), before + p.payload) && outs == [])
                || Missing(BUFFER - |a.buf|, c.buf, outs, |before + p.payload|))
  {
    assert a.buf + before + p.payload == a.buf + (before + p.payload);
  }

  /** Packets put behind an unfinished payload are all in the buffer, until that overflows; from then on
      at least as many bytes as would have filled it are missing. */
  lemma {:induction false} Swallowed(a: Asm, g: seq<Packet>, payload: seq<byte>, k: nat)
    requires Carries(g, payload) && Marked(g) && k < |g|
    requires a.synced && WaitsFor(a, g[0].seqno) && |a.buf| < BUFFER
    ensures var b, outs, more := Run(a, g[..k]), Outputs(a, g[..k]), Payloads(g[..k]);
            (Behind(a, b, g[k].seqno, more) && outs == []) || Missing(BUFFER - |a.buf|, b.buf, outs, |more|)
    decreases k
  {
    if k == 0 {
      assert a.buf + [] == a.buf;
    } else {
      Swallowed(a, g, payload, k - 1);
      OutputsSnoc(a, g, k - 1);
      hide Payloads, Outputs, Run, Step, Behind, Missing;
      FragmentSwallowed(a, Run(a, g[..k - 1]), g[k - 1], Outputs(a, g[..k - 1]), Payloads(g[..k - 1]));
    }
  }

  /** In any state that packets can lead to: a payload comes back if and only if it is not swallowed. */
  lemma GroupBackExactly(a: Asm, ps: seq<Packet>, g: seq<Packet>, payload: seq<byte>)
    requires Explained(a, ps) && Carries(g, payload) && Marked(g)
    ensures Outputs(a, g) == [payload] <==> !Swallows(a, g)
    ensures Outputs(a, g) == [payload] ==> Between(Run(a, g), Next(Last(g).seqno))
  {
    if !WaitsFor(a, g[0].seqno) {
      GroupComesBack(a, g, payload);
    } else {
      var n := |g| - 1;
      Swallowed(a, g, payload, n);
      OutputsSnoc(a, g, n);
      assert g[..n + 1] == g;
      hide Explained, Run, Outputs, Payloads;
      LastSwallowed(a, Run(a, g[..n]), g[n], |g| == 1, Outputs(a, g[..n]), Payloads(g[..n]));
    }
  }

  /** The last packet then completes what was in the buffer before, too, or far too little. */
  lemma LastSwallowed(a: Asm, b: Asm, p: Packet, single: bool, outs: seq<seq<byte>>, before: seq<byte>)
    requires |a.buf| < BUFFER && |before + p.payload| < BUFFER
    requires if single then Single(p) && before == [] else p.l
    requires (Behind(a, b, p.seqno, before) && outs == []) || Missing(BUFFER - |a.buf|, b.buf, outs, |before|)
    ensures var (c, r) := Step(b, p);
            var after := outs + if r.Complete? then [r.payload] else [];
            && (after == [before + p.payload] <==> !single && a.buf == [])
            && (after == [before + p.payload] ==> Between(c, Next(p.seqno)))
  {
    var (c, r) := Step(b, p);
    var full := before + p.payload;
    var after := outs + if r.Complete? then [r.payload] else [];
    if Missing(BUFFER - |a.buf|, b.buf, outs, |before|) {
      assert |full| == |before| + |p.payload| && r.Complete? ==> |r.payload| < |full|;
      assert a.buf != [] && (forall o | o in after :: |o| < |full|) && full in [full];
    } else {
      assert a.buf + before + p.payload == a.buf + full;
      assert a.buf != [] ==> |a.buf + full| > |full|;
      assert a.buf == [] ==> a.buf + full == full;
    }
  }

  /** A well-formed stream after any packets: it comes back when no unfinished payload waits for its first
      number, and, with its packets marked as fragments, if and only if its first payload is not swallowed. */
  lemma StreamAfterAny(ps: seq<Packet>, groups: seq<seq<Packet>>, payloads: seq<seq<byte>>)
    requires Stream(groups, payloads) && groups != []
    ensures var a, back := Run(RESET, ps), Outputs(RESET, ps + Flat(groups)) == Outputs(RESET, ps) + payloads;
            && (!WaitsFor(a, groups[0][0].seqno) ==> back)
            && (AllMarked(groups) ==> (back <==> !Swallows(a, groups[0])))
  {
    hide Step, Run, Outputs, Flat, Explained;
    RunExplained(ps);
    var a := Run(RESET, ps);
    RunAppend(RESET, ps, Flat(groups));
    if !WaitsFor(a, groups[0][0].seqno) {
      ReadyWhenExplained(a, ps, groups[0][0].seqno);
      StreamComesBack(a, groups, payloads);
    } else if AllMarked(groups) {
      StreamBackExactly(a, ps, groups, payloads);
    }
    Cancel(Outputs(RESET, ps), Outputs(a, Flat(groups)), payloads);
  }

  lemma Cancel(a: seq<seq<byte>>, b: seq<seq<byte>>, c: seq<seq<byte>>)
    ensures a + b == a + c <==> b == c
  {
    if a + b == a + c {
      assert (a + b)[|a|..] == b && (a + c)[|a|..] == c;
    }
  }

  lemma ReadyWhenExplained(a: Asm, ps: seq<Packet>, s: byte)
    requires Explained(a, ps) && !WaitsFor(a, s)
    ensures ReadyFor(a, s)
  {
  }

  predicate AllMarked(groups: seq<seq<Packet>>) {
    forall i | 0 <= i < |groups| :: Marked(groups[i])
  }

  lemma StreamBackExactly(a: Asm, ps: seq<Packet>, groups: seq<seq<Packet>>, payloads: seq<seq<byte>>)
    requires Explained(a, ps) && Stream(groups, payloads) && groups != [] && AllMarked(groups)
    ensures Outputs(a, Flat(groups)) == payloads <==> !Swallows(a, groups[0])
  {
    var g, rest := groups[0], groups[1..];
    StreamTail(groups, payloads);
    hide Step, Run, Outputs, Flat, Explained, Swallows, Carries, Marked, Stream, Between;
    GroupBackExactly(a, ps, g, payloads[0]);
    FlatFirst(groups);
    RunAppend(a, g, Flat(rest));
    OneOutput(a, g, payloads[0]);
    OutputsFew(Run(a, g), rest, payloads[1..]);
    FirstDecides(Outputs(a, g), Outputs(Run(a, g), Flat(rest)), payloads);
    if !Swallows(a, g) {
      RestComesBack(Run(a, g), groups, payloads);
    }
  }

  lemma FirstDecides(first: seq<seq<byte>>, others: seq<seq<byte>>, payloads: seq<seq<byte>>)
    requires |first| <= 1 && |others| < |payloads|
    ensures first + others == payloads <==> first == [payloads[0]] && others == payloads[1..]
  {
    if first + others == payloads {
      assert first != [];
      assert (first + others)[0] == first[0] && (first + others)[1..] == others;
    }
  }

  lemma RestComesBack(b: Asm, groups: seq<seq<Packet>>, payloads: seq<seq<byte>>)
    requires Stream(groups, payloads) && groups != [] && Between(b, Next(Last(groups[0]).seqno))
    ensures Outputs(b, Flat(groups[1..])) == payloads[1..]
  {
    StreamTail(groups, payloads);
    StreamComesBack(b, groups[1..], payloads[1..]);
  }

  lemma StreamTail(groups: seq<seq<Packet>>, payloads: seq<seq<byte>>)
    requires Stream(groups, payloads) && groups != []
    ensures |groups| == |payloads| && Carries(groups[0], payloads[0]) && Stream(groups[1..], payloads[1..])
    ensures forall i | 0 <= i < |groups[1..]| :: Carries(groups[1..][i], payloads[1..][i])
    ensures |groups| > 1 ==> groups[1][0].seqno == Next(Last(groups[0]).seqno)
  {
  }

  lemma {:induction false} FlatFirst(groups: seq<seq<Packet>>)
    requires groups != []
    ensures Flat(groups) == groups[0] + Flat(groups[1..])
  {
    var n := |groups| - 1;
    if n == 0 {
      assert Flat(groups) == [] + groups[0];
      assert groups[0] + [] == groups[0];
    } else {
      FlatFirst(groups[..n]);
      assert groups[..n][1..] == groups[1..][..n - 1];
    }
  }

  lemma {:induction false} SilentUpTo(a: Asm, g: seq<Packet>, k: nat)
    requires Marked(g) && k < |g|
    ensures Outputs(a, g[..k]) == []
    decreases k
  {
    if k > 0 {
      SilentUpTo(a, g, k - 1);
      OutputsSnoc(a, g, k - 1);
      hide Outputs, Payloads, Run;
    }
  }

  lemma OneOutput(a: Asm, g: seq<Packet>, payload: seq<byte>)
    requires Carries(g, payload) && Marked(g)
    ensures |Outputs(a, g)| <= 1
  {
    hide Outputs, Step, Payloads, Run;
    SilentUpTo(a, g, |g| - 1);
    OutputsSnoc(a, g, |g| - 1);
    assert g[..|g| - 1 + 1] == g;
  }

  lemma {:induction false} OutputsFew(a: Asm, groups: seq<seq<Packet>>, payloads: seq<seq<byte>>)
    requires |groups| == |payloads| && (forall i | 0 <= i < |groups| :: Carries(groups[i], payloads[i]))
    requires AllMarked(groups)
    ensures |Outputs(a, Flat(groups))| <= |groups|
    decreases |groups|
  {
    hide Step, Carries, Marked;
    if groups != [] {
      OneOutput(a, groups[0], payloads[0]);
      FlatFirst(groups);
      RunAppend(a, groups[0], Flat(groups[1..]));
      OutputsFew(Run(a, groups[0]), groups[1..], payloads[1..]);
    }
  }

  /** A payload in one packet is handed on exactly when no unfinished one waits for its number. */
  lemma SingleAfterAny(ps: seq<Packet>, p: Packet)
    requires Single(p) && |p.payload| < BUFFER
    ensures Outputs(RESET, ps + [p])
         == Outputs(RESET, ps) + if WaitsFor(Run(RESET, ps), p.seqno) then [] else [p.payload]
  {
    RunExplained(ps);
    assert (ps + [p])[..|ps|] == ps;
    assert Outputs(RESET, ps) + [] == Outputs(RESET, ps);
    hide Payloads, Run;
  }
}
