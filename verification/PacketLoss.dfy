/** The receive-side judge of mSBC packets (`packet_loss_detection_process`): mute pattern, repeated
    packet, header and CRC, sequence number. The sender's numbering of packets is modelled with it. */
module PacketLoss {
  import opened Helpers
  import opened SbcHeaderCrc

  const PACKET := 60

  datatype Verdict = PASS | CONTROLLER_MUTE | HEADER_ERROR | CRC_ERROR | SEQUENCE_DISCONTINUE | BLE_CONFLICT

  // ---------------------------------------------------------------------------------------------
  // One packet
  // ---------------------------------------------------------------------------------------------

  /** `older` and `newer` are the last two packets, whatever their verdict; `conflict1` and
      `conflict0` say whether the last two packets that were not mute were repeats. */
  datatype Loss = Loss(lastSeq: bv8, older: seq<bv8>, newer: seq<bv8>, conflict0: bool, conflict1: bool) {
    predicate Valid() {
      |older| == PACKET && |newer| == PACKET
    }
  }

  const FRESH := Loss(0xff, Repeat(0, PACKET), Repeat(0, PACKET), false, false)

  function NextSeq(s: bv8): bv8 {
    if s + 1 == 4 then 0 else s + 1
  }

  /** The padding byte is not looked at. */
  predicate Mute(pkt: seq<bv8>, pattern: bv8)
    requires |pkt| == PACKET
  {
    forall i | 0 <= i < PACKET - 1 :: pkt[i] == pattern
  }

  predicate Repeats(st: Loss, pkt: seq<bv8>)
    requires st.Valid() && |pkt| == PACKET
  {
    !st.conflict1 && st.older[..PACKET - 1] == pkt[..PACKET - 1]
  }

  /** The sequence number decides once the header has passed. */
  function Sequence(lastSeq: bv8, sn: bv8): (bv8, Verdict) {
    if sn == 0xff then (0xff, SEQUENCE_DISCONTINUE)
    else if lastSeq == 0xff || sn == NextSeq(lastSeq) then (sn, PASS)
    else (0xff, SEQUENCE_DISCONTINUE)
  }

  function Judge(lastSeq: bv8, pkt: seq<bv8>): (bv8, Verdict)
    requires |pkt| == PACKET
  {
    match CheckHeader(pkt)
    case Err(code) => (0xff, if code == -4 then CRC_ERROR else HEADER_ERROR)
    case Sn(sn) => Sequence(lastSeq, sn)
  }

  function Step(st: Loss, pkt: seq<bv8>, pattern: bv8): (r: (Loss, Verdict))
    requires st.Valid() && |pkt| == PACKET
    ensures r.0.Valid()
  {
    var seen := st.(older := st.newer, newer := pkt);
    if Mute(pkt, pattern) then (seen.(lastSeq := 0xff), CONTROLLER_MUTE)
    else
      var repeat := Repeats(st, pkt);
      var flagged := seen.(conflict0 := repeat, conflict1 := st.conflict0);
      if repeat then (flagged.(lastSeq := 0xff), BLE_CONFLICT)
      else
        var (last, verdict) := Judge(st.lastSeq, pkt);
        (flagged.(lastSeq := last), verdict)
  }

  // ---------------------------------------------------------------------------------------------
  // The histogram
  // ---------------------------------------------------------------------------------------------

  const KINDS := 9

  const DECODER_ERROR := 8

  const WORD := 0x1_0000_0000

  /** The place of a verdict in `plc_type_t`. */
  function Kind(verdict: Verdict): (kind: nat)
    ensures kind < DECODER_ERROR
  {
    match verdict
    case PASS => 0
    case CONTROLLER_MUTE => 1
    case HEADER_ERROR => 2
    case CRC_ERROR => 3
    case SEQUENCE_DISCONTINUE => 6
    case BLE_CONFLICT => 7
  }

  ghost predicate Words(hist: seq<nat>) {
    |hist| == KINDS && forall i | 0 <= i < KINDS :: hist[i] < WORD
  }

  /** Unsigned 32-bit arithmetic. */
  function Wrap(n: nat): (w: nat)
    ensures w < WORD
  {
    n % WORD
  }

  /** The 32-bit counters after one more packet of a kind. A decoder error takes back a PASS. */
  function Counted(hist: seq<nat>, kind: nat): (after: seq<nat>)
    requires |hist| == KINDS
    ensures Words(hist) ==> Words(after)
  {
    if kind >= KINDS then hist
    else
      var h := if kind == DECODER_ERROR then hist[0 := Wrap(hist[0] + WORD - 1)] else hist;
      h[kind := Wrap(h[kind] + 1)]
  }

  function Sum(hist: seq<nat>): nat {
    if hist == [] then 0 else Sum(hist[..|hist| - 1]) + hist[|hist| - 1]
  }

  lemma {:induction false} SumUpdate(hist: seq<nat>, i: nat, n: nat)
    requires i < |hist|
    ensures Sum(hist[i := n]) + hist[i] == Sum(hist) + n
  {
    var last := |hist| - 1;
    if i == last {
      assert hist[i := n][..last] == hist[..last];
    } else {
      assert hist[i := n][..last] == hist[..last][i := n];
      SumUpdate(hist[..last], i, n);
    }
  }

  /** The counters after packets of `kinds`, decoder errors reported in between. */
  function CountAll(hist: seq<nat>, kinds: seq<nat>): (after: seq<nat>)
    requires |hist| == KINDS
    ensures |after| == KINDS
  {
    if kinds == [] then hist else Counted(CountAll(hist, kinds[..|kinds| - 1]), kinds[|kinds| - 1])
  }

  function Judged(kinds: seq<nat>): nat {
    if kinds == [] then 0
    else Judged(kinds[..|kinds| - 1]) + if kinds[|kinds| - 1] < DECODER_ERROR then 1 else 0
  }

  /** The counters add up to the packets judged, whatever the decoder reported and whatever wrapped. */
  lemma {:induction false} TotalIsJudged(hist: seq<nat>, kinds: seq<nat>)
    requires |hist| == KINDS && Words(hist) && Sum(hist) == 0
    ensures Words(CountAll(hist, kinds))
    ensures Wrap(Sum(CountAll(hist, kinds))) == Wrap(Judged(kinds))
  {
    hide Words, Counted, Wrap, Sum;
    if kinds != [] {
      var before, kind := kinds[..|kinds| - 1], kinds[|kinds| - 1];
      TotalIsJudged(hist, before);
      CountedTotal(CountAll(hist, before), kind);
      AddCongruent(Sum(CountAll(hist, before)), Judged(before), if kind < DECODER_ERROR then 1 else 0);
    }
  }

  lemma AddCongruent(a: nat, b: nat, k: nat)
    requires Wrap(a) == Wrap(b)
    ensures Wrap(a + k) == Wrap(b + k)
  {
  }

  lemma CountedTotal(hist: seq<nat>, kind: nat)
    requires |hist| == KINDS
    ensures Wrap(Sum(Counted(hist, kind))) == Wrap(Sum(hist) + if kind < DECODER_ERROR then 1 else 0)
  {
    hide Words, Sum, Wrap;
    if kind == DECODER_ERROR {
      TakenBack(hist, hist[0 := Wrap(hist[0] + WORD - 1)]);
    } else if kind < KINDS {
      Bumped(hist, kind, 1);
    }
  }

  lemma TakenBack(hist: seq<nat>, h: seq<nat>)
    requires |hist| == KINDS && h == hist[0 := Wrap(hist[0] + WORD - 1)]
    ensures Wrap(Sum(h[DECODER_ERROR := Wrap(h[DECODER_ERROR] + 1)])) == Wrap(Sum(hist))
  {
    hide Sum, Wrap;
    Bumped(hist, 0, WORD - 1);
    Bumped(h, DECODER_ERROR, 1);
    AddCongruent(Sum(h), Sum(hist) + WORD - 1, 1);
    WholeTurn(Sum(hist));
  }

  lemma WholeTurn(a: nat)
    ensures Wrap(a + WORD - 1 + 1) == Wrap(a)
  {
  }

  lemma Bumped(hist: seq<nat>, i: nat, k: nat)
    requires i < |hist|
    ensures Wrap(Sum(hist[i := Wrap(hist[i] + k)])) == Wrap(Sum(hist) + k)
  {
    SumUpdate(hist, i, Wrap(hist[i] + k));
    hide Sum;
    var turns := (hist[i] + k) / WORD;
    assert Sum(hist[i := Wrap(hist[i] + k)]) == Sum(hist) + k - turns * WORD;
  }

  lemma {:induction false} NoneCounted(hist: seq<nat>)
    requires forall i | 0 <= i < |hist| :: hist[i] == 0
    ensures Sum(hist) == 0
  {
    if hist != [] {
      NoneCounted(hist[..|hist| - 1]);
    }
  }

  class PacketLossState {
    var lastSeqNum: bv8
    const lastPkt: array<bv8>
    const prevFlag: array<bool>
    const hist: array<nat>

    ghost predicate Valid()
      reads this
    {
      lastPkt.Length == 2 * PACKET && prevFlag.Length == 2 && hist.Length == KINDS
    }

    ghost function View(): Loss
      reads this, lastPkt, prevFlag
      requires Valid()
    {
      Loss(lastSeqNum, lastPkt[..PACKET], lastPkt[PACKET..], prevFlag[0], prevFlag[1])
    }

    /** `packet_loss_detection_init`. */
    constructor ()
      ensures Valid() && fresh(lastPkt) && fresh(prevFlag) && fresh(hist) && View() == FRESH
      ensures Words(hist[..]) && Sum(hist[..]) == 0
    {
      lastSeqNum := 0xff;
      lastPkt := new bv8[2 * PACKET](_ => 0);
      prevFlag := new bool[2](_ => false);
      hist := new nat[KINDS](_ => 0);
      new;
      NoneCounted(hist[..]);
    }

    /** `memcmp_U8` against the older packet: true when some byte differs. */
    method Differs(pkt: seq<bv8>, size: nat) returns (differs: bool)
      requires Valid() && size <= |pkt| && size <= PACKET
      ensures differs <==> lastPkt[..size] != pkt[..size]
    {
      var i := 0;
      while i < size
        invariant 0 <= i <= size
        invariant lastPkt[..i] == pkt[..i]
      {
        if lastPkt[i] != pkt[i] {
          assert lastPkt[..size][i] != pkt[..size][i];
          return true;
        }
        i := i + 1;
      }
      return false;
    }

    /** `update_ble_sco_conflict`. */
    method UpdateConflict(pkt: seq<bv8>) returns (repeat: bool)
      requires Valid() && |pkt| == PACKET
      modifies lastPkt
      ensures repeat == Repeats(old(View()), pkt)
      ensures View() == old(View()).(older := old(View()).newer, newer := pkt)
    {
      assert View().older[..PACKET - 1] == lastPkt[..PACKET - 1];
      var differs := Differs(pkt, PACKET - 1);
      repeat := prevFlag[1] == false && differs == false;
      forall i | 0 <= i < PACKET {
        lastPkt[i] := lastPkt[PACKET + i];
      }
      forall i | 0 <= i < PACKET {
        lastPkt[PACKET + i] := pkt[i];
      }
    }

    /** `check_ble_sco_conflict`. */
    method CheckConflict(repeat: bool)
      requires Valid()
      modifies prevFlag
      ensures View() == old(View()).(conflict0 := repeat, conflict1 := old(View()).conflict0)
    {
      prevFlag[1] := prevFlag[0];
      prevFlag[0] := repeat;
    }

    /** `msbc_check_controller_mute_pattern`. */
    static method CheckMute(pkt: seq<bv8>, pattern: bv8) returns (mute: bool)
      requires |pkt| == PACKET
      ensures mute <==> Mute(pkt, pattern)
    {
      var i := 0;
      while i < PACKET - 1
        invariant 0 <= i <= PACKET - 1
        invariant forall k | 0 <= k < i :: pkt[k] == pattern
      {
        if pkt[i] != pattern {
          return false;
        }
        i := i + 1;
      }
      return true;
    }

    /** The header check and the sequence check. */
    method JudgeHeader(pkt: seq<bv8>) returns (verdict: Verdict)
      requires Valid() && |pkt| == PACKET
      modifies this
      ensures Valid() && View() == old(View()).(lastSeq := Judge(old(lastSeqNum), pkt).0)
      ensures verdict == Judge(old(lastSeqNum), pkt).1
    {
      var err, seqNum := ParseHeader(pkt);
      if err < 0 && err >= -3 {
        verdict, lastSeqNum := HEADER_ERROR, 0xff;
      } else if err == -4 {
        verdict, lastSeqNum := CRC_ERROR, 0xff;
      } else if lastSeqNum == 0xff {
        if seqNum == 0xff {
          verdict := SEQUENCE_DISCONTINUE;
        } else {
          verdict := PASS;
        }
        lastSeqNum := seqNum;
      } else if seqNum == 0xff {
        verdict, lastSeqNum := SEQUENCE_DISCONTINUE, 0xff;
      } else if seqNum == NextSeq(lastSeqNum) {
        verdict, lastSeqNum := PASS, seqNum;
      } else {
        verdict, lastSeqNum := SEQUENCE_DISCONTINUE, 0xff;
      }
    }

    /** `packet_loss_detection_update_histogram`. */
    method UpdateHistogram(kind: nat)
      requires Valid()
      modifies hist
      ensures hist[..] == Counted(old(hist[..]), kind)
    {
      if kind >= KINDS {
        return;
      }
      if kind == DECODER_ERROR {
        hist[0] := Wrap(hist[0] + WORD - 1);
      }
      hist[kind] := Wrap(hist[kind] + 1);
    }

    /** `packet_loss_detection_process`. */
    method Process(pkt: seq<bv8>, pattern: bv8) returns (verdict: Verdict)
      requires Valid() && |pkt| == PACKET
      modifies this, lastPkt, prevFlag, hist
      ensures Valid()
      ensures View() == Step(old(View()), pkt, pattern).0 && verdict == Step(old(View()), pkt, pattern).1
      ensures hist[..] == Counted(old(hist[..]), Kind(verdict))
    {
      var repeat := UpdateConflict(pkt);
      var mute := CheckMute(pkt, pattern);
      if mute {
        verdict, lastSeqNum := CONTROLLER_MUTE, 0xff;
      } else {
        CheckConflict(repeat);
        if repeat {
          verdict, lastSeqNum := BLE_CONFLICT, 0xff;
        } else {
          verdict := JudgeHeader(pkt);
        }
      }
      UpdateHistogram(Kind(verdict));
    }
  }

  // ---------------------------------------------------------------------------------------------
  // Whole runs
  // ---------------------------------------------------------------------------------------------

  ghost predicate Packets(ps: seq<seq<bv8>>) {
    forall p | p in ps :: |p| == PACKET
  }

  ghost function Run(ps: seq<seq<bv8>>, pattern: bv8): (st: Loss)
    requires Packets(ps)
    ensures st.Valid()
  {
    if ps == [] then FRESH else Step(Run(ps[..|ps| - 1], pattern), ps[|ps| - 1], pattern).0
  }

  /** The verdict on packet `k`. */
  ghost function VerdictAt(ps: seq<seq<bv8>>, k: nat, pattern: bv8): Verdict
    requires Packets(ps) && k < |ps|
  {
    Step(Run(ps[..k], pattern), ps[k], pattern).1
  }

  lemma RunSnoc(ps: seq<seq<bv8>>, k: nat, pattern: bv8)
    requires Packets(ps) && k < |ps|
    ensures Run(ps[..k + 1], pattern) == Step(Run(ps[..k], pattern), ps[k], pattern).0
  {
    assert ps[..k + 1][..k] == ps[..k];
  }

  /** The sequence number in a header that passes the check. */
  function Number(pkt: seq<bv8>): (n: nat)
    requires |pkt| >= 10
    ensures n < 4
  {
    match CheckHeader(pkt)
    case Sn(sn) => Count(sn)
    case Err(_) => 0
  }

  function Count(sn: bv8): (n: nat)
    ensures n < 4
  {
    if sn == 0 then 0 else if sn == 1 then 1 else if sn == 2 then 2 else 3
  }

  predicate InRange(sn: bv8) {
    sn == 0 || sn == 1 || sn == 2 || sn == 3
  }

  lemma SnInRange(b: bv8)
    ensures InRange((Sn1(b) & 0x01) | (Sn2(b) & 0x02))
  {
  }

  lemma NextSeqCounts(s: bv8)
    requires InRange(s)
    ensures InRange(NextSeq(s)) && Count(NextSeq(s)) == (Count(s) + 1) % 4
  {
  }

  lemma CountInjective(s: bv8, t: bv8)
    requires InRange(s) && InRange(t) && Count(s) == Count(t)
    ensures s == t
  {
  }

  lemma StepMarksPass(st: Loss, pkt: seq<bv8>, pattern: bv8)
    requires st.Valid() && |pkt| == PACKET
    ensures var (t, verdict) := Step(st, pkt, pattern);
            if verdict == PASS then
              && InRange(t.lastSeq) && CheckHeader(pkt) == Sn(t.lastSeq)
              && (st.lastSeq == 0xff || t.lastSeq == NextSeq(st.lastSeq))
            else t.lastSeq == 0xff
  {
    SnInRange(pkt[1]);
  }

  /** The stored number is a real one exactly after a PASS, and then it is the packet's own. */
  lemma LastSeqMarksPass(ps: seq<seq<bv8>>, k: nat, pattern: bv8)
    requires Packets(ps) && k < |ps|
    ensures var last := Run(ps[..k + 1], pattern).lastSeq;
            && (VerdictAt(ps, k, pattern) == PASS <==> InRange(last))
            && (VerdictAt(ps, k, pattern) != PASS <==> last == 0xff)
            && (VerdictAt(ps, k, pattern) == PASS ==> CheckHeader(ps[k]) == Sn(last))
  {
    RunSnoc(ps, k, pattern);
    StepMarksPass(Run(ps[..k], pattern), ps[k], pattern);
  }

  ghost predicate AllPass(ps: seq<seq<bv8>>, i: nat, j: nat, pattern: bv8)
    requires Packets(ps) && j < |ps|
  {
    forall k | i <= k <= j :: VerdictAt(ps, k, pattern) == PASS
  }

  predicate RisesAt(ps: seq<seq<bv8>>, k: nat)
    requires k + 1 < |ps| && |ps[k]| >= 10 && |ps[k + 1]| >= 10
  {
    Number(ps[k + 1]) == (Number(ps[k]) + 1) % 4
  }

  lemma PassAfterPassRises(ps: seq<seq<bv8>>, k: nat, pattern: bv8)
    requires Packets(ps) && k + 1 < |ps|
    requires VerdictAt(ps, k, pattern) == PASS && VerdictAt(ps, k + 1, pattern) == PASS
    ensures RisesAt(ps, k)
  {
    hide Step;
    LastSeqMarksPass(ps, k, pattern);
    var st := Run(ps[..k + 1], pattern);
    StepMarksPass(st, ps[k + 1], pattern);
    NextSeqCounts(st.lastSeq);
  }

  lemma {:induction false} RisesAlong(ps: seq<seq<bv8>>, i: nat, j: nat)
    requires Packets(ps) && i <= j < |ps|
    requires forall k | i <= k < j :: RisesAt(ps, k)
    ensures Number(ps[j]) == (Number(ps[i]) + (j - i)) % 4
    decreases j
  {
    hide Number;
    if i < j {
      RisesAlong(ps, i, j - 1);
      assert RisesAt(ps, j - 1);
    }
  }

  /** Numbers rise by one modulo four along every run of PASS packets. */
  lemma PassRunCounts(ps: seq<seq<bv8>>, i: nat, j: nat, pattern: bv8)
    requires Packets(ps) && i <= j < |ps| && AllPass(ps, i, j, pattern)
    ensures Number(ps[j]) == (Number(ps[i]) + (j - i)) % 4
  {
    forall k | i <= k < j
      ensures RisesAt(ps, k)
    {
      PassAfterPassRises(ps, k, pattern);
    }
    RisesAlong(ps, i, j);
  }

  lemma RunPrefix(ps: seq<seq<bv8>>, more: seq<seq<bv8>>, k: nat, pattern: bv8)
    requires Packets(ps) && Packets(ps + more) && k < |ps|
    ensures VerdictAt(ps + more, k, pattern) == VerdictAt(ps, k, pattern)
  {
    assert (ps + more)[..k] == ps[..k];
  }

  /** A packet that can pass somewhere passes after number `last` exactly when it is the next one,
      unless it is taken for a repeat. */
  lemma JudgedAfter(last: bv8, st: Loss, earlier: Loss, pkt: seq<bv8>, pattern: bv8)
    requires st.Valid() && earlier.Valid() && |pkt| == PACKET
    requires st.lastSeq == last && InRange(last) && Step(earlier, pkt, pattern).1 == PASS
    ensures var verdict := Step(st, pkt, pattern).1;
            verdict == BLE_CONFLICT || (verdict == PASS <==> Number(pkt) == (Count(last) + 1) % 4)
    ensures Step(st, pkt, pattern).1 == PASS ==> Number(pkt) == (Count(last) + 1) % 4
  {
    StepMarksPass(earlier, pkt, pattern);
    NextSeqCounts(last);
    var sn := CheckHeader(pkt).sn;
    if Count(sn) == Count(NextSeq(last)) {
      CountInjective(sn, NextSeq(last));
    }
  }

  /** Dropping packets out of a passing stream is noticed at the next packet unless a multiple of
      four is lost, and then only a repeat can be suspected. */
  lemma DropDetected(a: seq<seq<bv8>>, lost: seq<seq<bv8>>, next: seq<bv8>, pattern: bv8)
    requires a != [] && Packets(a) && Packets(a + [next]) && Packets(a + (lost + [next]))
    requires AllPass(a + (lost + [next]), |a| - 1, |a| + |lost|, pattern)
    ensures var verdict := VerdictAt(a + [next], |a|, pattern);
            if |lost| % 4 != 0 then verdict != PASS else verdict == PASS || verdict == BLE_CONFLICT
  {
    hide Step, CheckHeader;
    var ps, n, m := a + (lost + [next]), |a| - 1, |a| + |lost|;
    PassRunCounts(ps, n, m, pattern);
    RunPrefix(a, lost + [next], n, pattern);
    LastSeqMarksPass(a, n, pattern);
    assert a[..n + 1] == a && (a + [next])[..|a|] == a;
    var st := Run(a, pattern);
    assert VerdictAt(ps, m, pattern) == PASS;
    JudgedAfter(st.lastSeq, st, Run(ps[..m], pattern), next, pattern);
  }

  /** The verdicts other than CONTROLLER_MUTE, in order. */
  ghost function Shown(ps: seq<seq<bv8>>, pattern: bv8): seq<Verdict>
    requires Packets(ps)
  {
    if ps == [] then []
    else Shown(ps[..|ps| - 1], pattern) + NotMute(VerdictAt(ps, |ps| - 1, pattern))
  }

  function NotMute(v: Verdict): seq<Verdict> {
    if v == CONTROLLER_MUTE then [] else [v]
  }

  ghost predicate Remembered(w: seq<Verdict>, conflict0: bool, conflict1: bool) {
    && (conflict0 <==> |w| >= 1 && w[|w| - 1] == BLE_CONFLICT)
    && (conflict1 <==> |w| >= 2 && w[|w| - 2] == BLE_CONFLICT)
  }

  ghost predicate Spaced(w: seq<Verdict>) {
    forall i | 0 <= i < |w| - 2 :: w[i] == BLE_CONFLICT ==> w[i + 2] != BLE_CONFLICT
  }

  lemma StepRemembers(st: Loss, pkt: seq<bv8>, pattern: bv8, w: seq<Verdict>)
    requires st.Valid() && |pkt| == PACKET && Remembered(w, st.conflict0, st.conflict1) && Spaced(w)
    ensures var (t, v) := Step(st, pkt, pattern);
            && Remembered(w + NotMute(v), t.conflict0, t.conflict1) && Spaced(w + NotMute(v))
            && t.newer == pkt && t.older == st.newer
  {
    var (t, v) := Step(st, pkt, pattern);
    assert NotMute(v) == [] ==> w + NotMute(v) == w;
  }

  /** The two flags remember the last two verdicts that were not mute; the two packets kept are the
      last two received. A repeat is never reported two such verdicts after another. */
  lemma {:induction false} ConflictsSpaced(ps: seq<seq<bv8>>, pattern: bv8)
    requires Packets(ps)
    ensures Remembered(Shown(ps, pattern), Run(ps, pattern).conflict0, Run(ps, pattern).conflict1)
    ensures Spaced(Shown(ps, pattern))
    ensures |ps| >= 1 ==> Run(ps, pattern).newer == ps[|ps| - 1]
    ensures |ps| >= 2 ==> Run(ps, pattern).older == ps[|ps| - 2]
  {
    if ps != [] {
      var n := |ps| - 1;
      ConflictsSpaced(ps[..n], pattern);
      StepRemembers(Run(ps[..n], pattern), ps[n], pattern, Shown(ps[..n], pattern));
    }
  }

  // ---------------------------------------------------------------------------------------------
  // The sender
  // ---------------------------------------------------------------------------------------------

  function NextCounter(c: bv8): bv8 {
    if c == 0x08 then 0x38 else if c == 0x38 then 0xC8 else if c == 0xC8 then 0xF8 else if c == 0xF8 then 0x08 else c
  }

  predicate IsCounter(c: bv8) {
    c == 0x08 || c == 0x38 || c == 0xC8 || c == 0xF8
  }

  /** An encoded mSBC frame: sync word, two zero bytes and the CRC over its first header bytes. */
  predicate MsbcBody(body: seq<bv8>) {
    && |body| == PACKET - 3 && body[0] == 0xAD && body[1] == 0 && body[2] == 0
    && body[3] == Crc(CRC_INIT, MessageBits([0, 0, body[4], body[5], body[6], body[7]]))
  }

  /** `0x01`, the counter, the frame, one padding byte. */
  function Packet(counter: bv8, body: seq<bv8>): (pkt: seq<bv8>)
    requires |body| == PACKET - 3
    ensures |pkt| == PACKET
  {
    [0x01, counter] + body + [0x00]
  }

  class Sender {
    var counter: bv8

    constructor ()
      ensures counter == 0x08
    {
      counter := 0x08;
    }

    /** `get_msbc_counter`. */
    method GetMsbcCounter() returns (c: bv8)
      modifies this
      ensures c == counter == NextCounter(old(counter))
      ensures old(counter) == 0x08 ==> c == 0x38
      ensures old(counter) == 0x38 ==> c == 0xC8
      ensures old(counter) == 0xC8 ==> c == 0xF8
      ensures old(counter) == 0xF8 ==> c == 0x08
    {
      if counter == 0x08 {
        counter := 0x38;
      } else if counter == 0x38 {
        counter := 0xC8;
      } else if counter == 0xC8 {
        counter := 0xF8;
      } else if counter == 0xF8 {
        counter := 0x08;
      }
      return counter;
    }

    /** The framing in `get_voicebtpcm_p2m_frame`. */
    method FramePacket(body: seq<bv8>) returns (pkt: seq<bv8>)
      requires |body| == PACKET - 3
      modifies this
      ensures counter == NextCounter(old(counter)) && pkt == Packet(counter, body)
      ensures |pkt| == 60 && pkt[0] == 0x01 && pkt[1] == counter && pkt[2..59] == body && pkt[59] == 0x00
    {
      var c := GetMsbcCounter();
      pkt := [0x01, c];
      var i := 0;
      while i < |body|
        invariant 0 <= i <= |body| && pkt == [0x01, c] + body[..i]
      {
        pkt := pkt + [body[i]];
        i := i + 1;
      }
      assert body[..i] == body;
      pkt := pkt + [0x00];
    }
  }

  function CounterAfter(start: bv8, n: nat): bv8 {
    if n == 0 then start else NextCounter(CounterAfter(start, n - 1))
  }

  ghost predicate Bodies(bodies: seq<seq<bv8>>) {
    forall b | b in bodies :: |b| == PACKET - 3
  }

  ghost predicate Encoded(bodies: seq<seq<bv8>>) {
    forall b | b in bodies :: MsbcBody(b)
  }

  /** The packets sent for a list of frames, from counter value `start`. */
  ghost function Sent(start: bv8, bodies: seq<seq<bv8>>): (ps: seq<seq<bv8>>)
    requires Bodies(bodies)
  {
    seq(|bodies|, k requires 0 <= k < |bodies| && |bodies[k]| == PACKET - 3 =>
      Packet(CounterAfter(start, k + 1), bodies[k]))
  }

  lemma CountersTwoApart(c: bv8)
    requires IsCounter(c)
    ensures IsCounter(NextCounter(c)) && NextCounter(NextCounter(c)) != c
  {
  }

  lemma {:induction false} CounterStays(start: bv8, n: nat)
    requires IsCounter(start)
    ensures IsCounter(CounterAfter(start, n))
  {
    if n > 0 {
      CounterStays(start, n - 1);
    }
  }

  function SnOf(counter: bv8): bv8 {
    (Sn1(counter) & 0x01) | (Sn2(counter) & 0x02)
  }

  lemma CounterHeader(c: bv8)
    requires IsCounter(c)
    ensures c & 0x0f == 0x08 && (Sn1(c) == 0 || Sn1(c) == 3) && (Sn2(c) == 0 || Sn2(c) == 3)
    ensures InRange(SnOf(c)) && SnOf(NextCounter(c)) == NextSeq(SnOf(c))
  {
  }

  lemma PacketHeader(c: bv8, body: seq<bv8>)
    requires IsCounter(c) && MsbcBody(body)
    ensures CheckHeader(Packet(c, body)) == Sn(SnOf(c))
  {
    CounterHeader(c);
    var pkt := Packet(c, body);
    assert Covered(pkt) == [0, 0, body[4], body[5], body[6], body[7]];
  }

  // ---------------------------------------------------------------------------------------------
  // Sender and detector together
  // ---------------------------------------------------------------------------------------------

  /** The padding byte does not count. */
  ghost predicate Agrees(f: seq<bv8>, pkt: seq<bv8>) {
    |f| == PACKET == |pkt| && f[..PACKET - 1] == pkt[..PACKET - 1]
  }

  /** `f` is packet `n` of a sender. */
  ghost predicate Holds(f: seq<bv8>, start: bv8, bodies: seq<seq<bv8>>, n: nat)
    requires Bodies(bodies)
  {
    n < |bodies| && MsbcBody(bodies[n]) && Agrees(f, Packet(CounterAfter(start, n + 1), bodies[n]))
  }

  /** What reaches the detector: in frame `a + k` packet `m + k` of a sender, or in its place, and before
      frame `a` anyway, something without a header. */
  ghost predicate Feed(fs: seq<seq<bv8>>, a: nat, start: bv8, bodies: seq<seq<bv8>>, m: nat)
    requires Packets(fs) && Bodies(bodies)
  {
    forall k | 0 <= k < |fs| && SyncWord(fs[k]) :: k >= a && Holds(fs[k], start, bodies, m + k - a)
  }

  lemma AgreesHeader(f: seq<bv8>, c: bv8, body: seq<bv8>)
    requires IsCounter(c) && MsbcBody(body) && Agrees(f, Packet(c, body))
    ensures f[0] == 0x01 && f[1] == c && SyncWord(f) && CheckHeader(f) == Sn(SnOf(c))
  {
    var pkt := Packet(c, body);
    PacketHeader(c, body);
    forall i | 0 <= i < PACKET - 1
      ensures f[i] == pkt[i]
    {
      assert f[..PACKET - 1][i] == pkt[..PACKET - 1][i];
    }
    assert Covered(f) == Covered(pkt);
  }

  /** Everything that matters of what the detector remembers after `k` frames. */
  ghost predicate Heard(st: Loss, fs: seq<seq<bv8>>, a: nat, start: bv8, m: nat, k: nat)
    requires Packets(fs) && k <= |fs|
  {
    && st.Valid()
    && st.newer == (if k == 0 then FRESH.newer else fs[k - 1])
    && st.older == (if k <= 1 then FRESH.older else fs[k - 2])
    && st.lastSeq == (if k > a && SyncWord(fs[k - 1]) then SnOf(CounterAfter(start, m + k - a)) else 0xff)
  }

  lemma NoHeaderNoPass(st: Loss, f: seq<bv8>, pattern: bv8)
    requires st.Valid() && |f| == PACKET && !SyncWord(f)
    ensures var (t, verdict) := Step(st, f, pattern);
            verdict != PASS && t.lastSeq == 0xff && t.newer == f && t.older == st.newer
  {
  }

  lemma SeqDiffers(x: seq<bv8>, y: seq<bv8>, i: nat)
    requires |x| == PACKET == |y| && i < PACKET - 1 && x[i] != y[i]
    ensures x[..PACKET - 1] != y[..PACKET - 1]
  {
    assert x[..PACKET - 1][i] != y[..PACKET - 1][i];
  }

  /** A packet of the sender is never taken for a repeat: two frames before it came no header, or a
      packet with another counter. */
  lemma NotRepeated(st: Loss, fs: seq<seq<bv8>>, a: nat, start: bv8, bodies: seq<seq<bv8>>, m: nat, k: nat)
    requires IsCounter(start) && Packets(fs) && Bodies(bodies) && Feed(fs, a, start, bodies, m)
    requires a <= k < |fs| && SyncWord(fs[k]) && Heard(st, fs, a, start, m, k)
    ensures !Repeats(st, fs[k])
  {
    hide CheckHeader, Packet, MsbcBody, CounterAfter;
    var n := m + k - a;
    CounterStays(start, n + 1);
    AgreesHeader(fs[k], CounterAfter(start, n + 1), bodies[n]);
    if k <= 1 {
      SeqDiffers(st.older, fs[k], 0);
    } else if !SyncWord(fs[k - 2]) {
      SeqDiffers(st.older, fs[k], if fs[k - 2][0] != fs[k][0] then 0 else if fs[k - 2][1] != fs[k][1] then 1 else 2);
    } else {
      CounterStays(start, n - 1);
      AgreesHeader(fs[k - 2], CounterAfter(start, n - 1), bodies[n - 2]);
      CounterTwoBack(start, n);
      SeqDiffers(st.older, fs[k], 1);
    }
  }

  lemma CounterTwoBack(start: bv8, n: nat)
    requires IsCounter(start) && n >= 2
    ensures CounterAfter(start, n + 1) != CounterAfter(start, n - 1)
  {
    CounterStays(start, n - 1);
    CountersTwoApart(CounterAfter(start, n - 1));
  }

  /** The next number in turn passes. */
  lemma InTurnPasses(st: Loss, f: seq<bv8>, sn: bv8, pattern: bv8)
    requires st.Valid() && |f| == PACKET && !Mute(f, pattern) && !Repeats(st, f)
    requires CheckHeader(f) == Sn(sn) && InRange(sn) && (st.lastSeq == 0xff || sn == NextSeq(st.lastSeq))
    ensures Step(st, f, pattern) == (Loss(sn, st.newer, f, false, st.conflict0), PASS)
  {
  }

  lemma SentPasses(st: Loss, fs: seq<seq<bv8>>, a: nat, start: bv8, bodies: seq<seq<bv8>>, m: nat, k: nat, pattern: bv8)
    requires IsCounter(start) && pattern != 0x01 && Packets(fs) && Bodies(bodies) && Feed(fs, a, start, bodies, m)
    requires a <= k < |fs| && SyncWord(fs[k]) && Heard(st, fs, a, start, m, k)
    ensures Step(st, fs[k], pattern).1 == PASS && Heard(Step(st, fs[k], pattern).0, fs, a, start, m, k + 1)
  {
    hide CheckHeader, Packet, MsbcBody, Step, Sequence, Judge;
    var n := m + k - a;
    var c := CounterAfter(start, n + 1);
    CounterStays(start, n);
    CounterStays(start, n + 1);
    CounterHeader(CounterAfter(start, n));
    CounterHeader(c);
    AgreesHeader(fs[k], c, bodies[n]);
    NotRepeated(st, fs, a, start, bodies, m, k);
    assert fs[k][0] != pattern;
    InTurnPasses(st, fs[k], SnOf(c), pattern);
  }

  lemma StepHeard(st: Loss, fs: seq<seq<bv8>>, a: nat, start: bv8, bodies: seq<seq<bv8>>, m: nat, k: nat, pattern: bv8)
    requires IsCounter(start) && pattern != 0x01 && Packets(fs) && Bodies(bodies) && Feed(fs, a, start, bodies, m)
    requires k < |fs| && Heard(st, fs, a, start, m, k)
    ensures Heard(Step(st, fs[k], pattern).0, fs, a, start, m, k + 1)
    ensures Step(st, fs[k], pattern).1 == PASS <==> SyncWord(fs[k])
  {
    hide Step, IsCounter, CounterAfter, SyncWord;
    if !SyncWord(fs[k]) {
      NoHeaderNoPass(st, fs[k], pattern);
    } else {
      SentPasses(st, fs, a, start, bodies, m, k, pattern);
    }
  }

  lemma {:induction false} FeedHeard(fs: seq<seq<bv8>>, a: nat, start: bv8, bodies: seq<seq<bv8>>, m: nat, k: nat,
                                     pattern: bv8)
    requires IsCounter(start) && pattern != 0x01 && Packets(fs) && Bodies(bodies) && Feed(fs, a, start, bodies, m)
    requires k <= |fs|
    ensures Heard(Run(fs[..k], pattern), fs, a, start, m, k)
    ensures k > 0 ==> (VerdictAt(fs, k - 1, pattern) == PASS <==> SyncWord(fs[k - 1]))
  {
    hide Step, IsCounter, Heard, Feed;
    if k == 0 {
      FreshHeard(fs, a, start, m);
    } else {
      FeedHeard(fs, a, start, bodies, m, k - 1, pattern);
      RunSnoc(fs, k - 1, pattern);
      StepHeard(Run(fs[..k - 1], pattern), fs, a, start, bodies, m, k - 1, pattern);
    }
  }

  lemma FreshHeard(fs: seq<seq<bv8>>, a: nat, start: bv8, m: nat)
    requires Packets(fs)
    ensures Heard(FRESH, fs, a, start, m, 0)
  {
  }

  /** From a fresh detector, whatever frames without a header come first or in the place of packets: none
      of them passes, and every packet of the sender that arrives does. */
  lemma ExactlyPacketsPass(fs: seq<seq<bv8>>, a: nat, start: bv8, bodies: seq<seq<bv8>>, m: nat, k: nat, pattern: bv8)
    requires IsCounter(start) && pattern != 0x01 && Packets(fs) && Bodies(bodies) && Feed(fs, a, start, bodies, m)
    requires k < |fs|
    ensures VerdictAt(fs, k, pattern) == PASS <==> SyncWord(fs[k])
  {
    hide Step, IsCounter, Feed;
    FeedHeard(fs, a, start, bodies, m, k + 1, pattern);
  }

  /** Sender and detector agree: every packet of every stream the sender frames is judged PASS, so
      neither the mute test nor the repeat test ever misfires. */
  lemma SenderAlwaysPasses(start: bv8, bodies: seq<seq<bv8>>, k: nat, pattern: bv8)
    requires IsCounter(start) && k < |bodies| && pattern != 0x01
    requires Bodies(bodies) && Encoded(bodies)
    ensures Packets(Sent(start, bodies)) && VerdictAt(Sent(start, bodies), k, pattern) == PASS
  {
    hide Step, Packet, IsCounter, MsbcBody, SyncWord;
    var ps := Sent(start, bodies);
    assert Packets(ps) && Feed(ps, 0, start, bodies, 0);
    CounterStays(start, k + 1);
    AgreesHeader(ps[k], CounterAfter(start, k + 1), bodies[k]);
    ExactlyPacketsPass(ps, 0, start, bodies, 0, k, pattern);
  }
}
