/** The LHDC assembler on bytes: what the header byte says, what one packet does, and that the packets a
    sender writes give its payloads back. */
module LhdcBytes {
  import opened Bytes
  import opened LhdcAssembler

  // ---------------------------------------------------------------------------------------------
  // The header byte
  // ---------------------------------------------------------------------------------------------

  /** The five bits below the flags, which hold latency and frame count. */
  type low5 = b: int | 0 <= b < 0x20

  function Flags(p: Packet): (h: byte)
    ensures h % 0x20 == 0
  {
    (if p.f then 0x80 else 0) + (if p.s then 0x40 else 0) + if p.l then 0x20 else 0
  }

  /** A packet as a sender writes it. */
  function Written(p: Packet, low: low5): (w: seq<byte>)
    ensures |w| == 2 + |p.payload|
  {
    [Flags(p) + low, p.seqno] + p.payload
  }

  lemma DecodeWritten(p: Packet, low: low5)
    ensures Decode(Written(p, low)) == p
  {
    var w := Written(p, low);
    assert w[2..] == p.payload;
  }

  /** Every header byte is the sum of its flags and what is below them. */
  lemma HeaderMeans(input: seq<byte>) returns (low: low5)
    requires |input| >= 2
    ensures var p := Decode(input);
            && input[0] == (if p.f then 0x80 else 0) + (if p.s then 0x40 else 0) + (if p.l then 0x20 else 0) + low
            && p.seqno == input[1] && p.payload == input[2..]
            && Written(p, low) == input
  {
    low := input[0] % 0x20;
    var p := Decode(input);
    assert input == [input[0], input[1]] + input[2..];
  }

  // ---------------------------------------------------------------------------------------------
  // One packet
  // ---------------------------------------------------------------------------------------------

  /** What a packet does, as a table: a number out of turn loses what is collected, and of such packets
      only those that can begin a payload are looked at. */
  lemma StepTable(a: Asm, p: Packet)
    ensures var (t, r) := Step(a, p);
            var lost := a.synced && p.seqno != a.serial;
            var open, held := a.open && !lost, if lost then [] else a.buf;
            var alone := !p.f && !p.s && !p.l;
            var fits := |held| + |p.payload| < 4096;
            var starts := !open && !alone && p.s && fits;
            && (r.Complete? <==> if open then fits && p.l else alone)
            && (r.Rejected? <==> if open then !fits else !alone && !p.s && !lost)
            && (r.Complete? ==> r.payload == if open then held + p.payload else p.payload)
            && (t.synced <==> (a.synced && !lost) || (!open && alone) || starts)
            && t.serial == (if t.synced then (p.seqno + 1) % 256 else a.serial)
            && (t.open <==> starts || (open && fits && !p.l))
            && t.buf == (if starts then p.payload
                         else if open && fits && !p.l then held + p.payload
                         else if !open && !alone && !p.s then held
                         else [])
  {
  }

  // ---------------------------------------------------------------------------------------------
  // A sender
  // ---------------------------------------------------------------------------------------------

  /** Part `i` of `count`, in the packet with number `n` modulo 256: alone it carries no flag; of several
      parts all carry the F flag, the first the S flag and the last the L flag. */
  function PacketBytes(part: seq<byte>, i: nat, count: nat, n: nat, low: nat -> low5): (w: seq<byte>)
    requires i < count
    ensures |w| >= 2
  {
    [(if count == 1 then 0 else if i == 0 then 0xC0 else if i == count - 1 then 0xA0 else 0x80) + low(n),
     n % 256] + part
  }

  /** The packets of one payload, cut into `parts`, numbered from `n` on. */
  function CutUp(parts: seq<seq<byte>>, n: nat, low: nat -> low5): (ws: seq<seq<byte>>)
    ensures |ws| == |parts| && forall i | 0 <= i < |ws| :: |ws[i]| >= 2
  {
    seq(|parts|, i requires 0 <= i < |parts| => PacketBytes(parts[i], i, |parts|, n + i, low))
  }

  /** And of a list of payloads, one behind the other. */
  function SendAll(cuts: seq<seq<seq<byte>>>, n: nat, low: nat -> low5): (ws: seq<seq<byte>>)
    ensures forall i | 0 <= i < |ws| :: |ws[i]| >= 2
  {
    if cuts == [] then [] else CutUp(cuts[0], n, low) + SendAll(cuts[1..], n + |cuts[0]|, low)
  }

  /** Payloads cut into at least one part each that fit the buffer. */
  predicate Sendable(cuts: seq<seq<seq<byte>>>) {
    forall i | 0 <= i < |cuts| :: cuts[i] != [] && |Concat(cuts[i])| < 4096
  }

  function Wholes(cuts: seq<seq<seq<byte>>>): (payloads: seq<seq<byte>>)
    ensures |payloads| == |cuts| && forall i | 0 <= i < |cuts| :: payloads[i] == Concat(cuts[i])
  {
    seq(|cuts|, i requires 0 <= i < |cuts| => Concat(cuts[i]))
  }

  function DecodeAll(ws: seq<seq<byte>>): (ps: seq<Packet>)
    requires forall i | 0 <= i < |ws| :: |ws[i]| >= 2
    ensures |ps| == |ws| && forall i | 0 <= i < |ws| :: ps[i] == Decode(ws[i])
  {
    seq(|ws|, i requires 0 <= i < |ws| => Decode(ws[i]))
  }

  // ---------------------------------------------------------------------------------------------
  // Round trip
  // ---------------------------------------------------------------------------------------------

  lemma DecodePart(part: seq<byte>, i: nat, count: nat, n: nat, low: nat -> low5)
    requires i < count
    ensures Decode(PacketBytes(part, i, count, n, low))
         == Packet(count > 1, count > 1 && i == 0, count > 1 && i == count - 1, n % 256, part)
  {
    var p := Packet(count > 1, count > 1 && i == 0, count > 1 && i == count - 1, n % 256, part);
    DecodeWritten(p, low(n));
    assert PacketBytes(part, i, count, n, low) == Written(p, low(n));
  }

  lemma {:induction false} PayloadsAreConcat(ps: seq<Packet>, parts: seq<seq<byte>>)
    requires |ps| == |parts| && forall i | 0 <= i < |ps| :: ps[i].payload == parts[i]
    ensures Payloads(ps) == Concat(parts)
  {
    if ps != [] {
      var m := |ps| - 1;
      PayloadsAreConcat(ps[..m], parts[..m]);
      ConcatAppend(parts[..m], [parts[m]]);
      ConcatOne(parts[m]);
      assert parts[..m] + [parts[m]] == parts;
    }
  }

  lemma NextModulo(n: nat)
    ensures Next(n % 256) == (n + 1) % 256
  {
  }

  /** Packets flagged and numbered as a sender does it carry their payload. */
  lemma SenderCarries(g: seq<Packet>, payload: seq<byte>, n: nat)
    requires g != [] && Payloads(g) == payload && |payload| < 4096
    requires forall i | 0 <= i < |g| ::
               && g[i].seqno == (n + i) % 256 && g[i].f == (|g| > 1) && g[i].s == (|g| > 1 && i == 0)
               && g[i].l == (|g| > 1 && i == |g| - 1)
    ensures Carries(g, payload) && Marked(g)
    ensures g[0].seqno == n % 256 && Last(g).seqno == (n + |g| - 1) % 256
  {
    hide Payloads;
    forall i | 0 < i < |g|
      ensures g[i].seqno == Next(g[i - 1].seqno)
    {
      NextModulo(n + i - 1);
    }
  }

  lemma CutCarries(parts: seq<seq<byte>>, n: nat, low: nat -> low5)
    requires parts != [] && |Concat(parts)| < 4096
    ensures var g := DecodeAll(CutUp(parts, n, low));
            && Carries(g, Concat(parts)) && Marked(g)
            && g[0].seqno == n % 256 && Last(g).seqno == (n + |parts| - 1) % 256
  {
    hide Payloads, Concat, Decode, PacketBytes, Carries, Marked;
    var g := DecodeAll(CutUp(parts, n, low));
    forall i | 0 <= i < |parts|
      ensures var m := |parts|;
              g[i] == Packet(m > 1, m > 1 && i == 0, m > 1 && i == m - 1, (n + i) % 256, parts[i])
    {
      DecodePart(parts[i], i, |parts|, n + i, low);
    }
    PayloadsAreConcat(g, parts);
    SenderCarries(g, Concat(parts), n);
  }

  /** The groups of packets a sender's bytes decode to. */
  function Groups(cuts: seq<seq<seq<byte>>>, n: nat, low: nat -> low5): (groups: seq<seq<Packet>>)
    ensures |groups| == |cuts|
  {
    if cuts == [] then []
    else [DecodeAll(CutUp(cuts[0], n, low))] + Groups(cuts[1..], n + |cuts[0]|, low)
  }

  lemma DecodeAllAppend(a: seq<seq<byte>>, b: seq<seq<byte>>)
    requires forall i | 0 <= i < |a| :: |a[i]| >= 2
    requires forall i | 0 <= i < |b| :: |b[i]| >= 2
    ensures DecodeAll(a + b) == DecodeAll(a) + DecodeAll(b)
  {
    hide Decode;
  }

  lemma {:induction false} GroupsStream(cuts: seq<seq<seq<byte>>>, n: nat, low: nat -> low5)
    requires Sendable(cuts)
    ensures var groups := Groups(cuts, n, low);
            && Stream(groups, Wholes(cuts)) && AllMarked(groups) && DecodeAll(SendAll(cuts, n, low)) == Flat(groups)
            && (cuts != [] ==> groups[0] != [] && groups[0][0].seqno == n % 256)
    decreases |cuts|
  {
    hide Carries, Marked, Concat, CutUp, Decode, Stream, AllMarked, Flat, DecodeAll;
    if cuts == [] {
      NothingSent(n, low);
    } else {
      var rest, m, groups := cuts[1..], n + |cuts[0]|, Groups(cuts, n, low);
      CutCarries(cuts[0], n, low);
      NextModulo(m - 1);
      GroupsStream(rest, m, low);
      FlatFirst(groups);
      DecodeAllAppend(CutUp(cuts[0], n, low), SendAll(rest, m, low));
      assert Wholes(cuts)[1..] == Wholes(rest) && groups[1..] == Groups(rest, m, low);
      GroupsJoin(groups, Wholes(cuts));
    }
  }

  lemma NothingSent(n: nat, low: nat -> low5)
    ensures Stream([], []) && AllMarked([]) && DecodeAll(SendAll([], n, low)) == Flat([]) == [] && Wholes([]) == []
  {
  }

  lemma GroupsJoin(groups: seq<seq<Packet>>, payloads: seq<seq<byte>>)
    requires |groups| == |payloads| >= 1 && groups[0] != []
    requires Carries(groups[0], payloads[0]) && Marked(groups[0])
    requires Stream(groups[1..], payloads[1..]) && AllMarked(groups[1..])
    requires |groups| > 1 ==> groups[1] != [] && groups[1][0].seqno == Next(Last(groups[0]).seqno)
    ensures Stream(groups, payloads) && AllMarked(groups)
  {
    hide Marked, Payloads;
    forall i | 0 < i < |groups|
      ensures Carries(groups[i], payloads[i]) && Marked(groups[i])
    {
      assert groups[i] == groups[1..][i - 1] && payloads[i] == payloads[1..][i - 1];
    }
    hide Carries;
    forall i {:trigger groups[i]} | 0 < i < |groups|
      ensures groups[i] != [] && groups[i - 1] != [] && groups[i][0].seqno == Next(Last(groups[i - 1]).seqno)
    {
      var g := groups[1..];
      if i > 1 {
        assert g[i - 1] == groups[i] && g[i - 2] == groups[i - 1];
      }
    }
  }

  /** What a sender writes from number `n` on, behind any packets since the reset: its payloads come back,
      one by one, if and only if no payload is unfinished that waits for that number and would take the
      first part for its own. */
  lemma BytesComeBack(before: seq<seq<byte>>, cuts: seq<seq<seq<byte>>>, n: nat, low: nat -> low5)
    requires Sendable(cuts) && cuts != [] && forall i | 0 <= i < |before| :: |before[i]| >= 2
    ensures var a, sent := Run(RESET, DecodeAll(before)), SendAll(cuts, n, low);
            Outputs(RESET, DecodeAll(before + sent)) == Outputs(RESET, DecodeAll(before)) + Wholes(cuts)
            <==> !(a.open && a.serial == n % 256 && (|cuts[0]| == 1 || a.buf != []))
  {
    var ps, groups := DecodeAll(before), Groups(cuts, n, low);
    hide Run, Outputs, Decode, Stream, AllMarked, Flat, Groups, SendAll, DecodeAll, Wholes, Sendable;
    SentGroups(before, cuts, n, low);
    StreamAfterAny(ps, groups, Wholes(cuts));
  }

  lemma SentGroups(before: seq<seq<byte>>, cuts: seq<seq<seq<byte>>>, n: nat, low: nat -> low5)
    requires Sendable(cuts) && cuts != [] && forall i | 0 <= i < |before| :: |before[i]| >= 2
    ensures var groups := Groups(cuts, n, low);
            && Stream(groups, Wholes(cuts)) && AllMarked(groups) && |groups| == |cuts| == |Wholes(cuts)|
            && |groups[0]| == |cuts[0]| > 0 && groups[0][0].seqno == n % 256
            && DecodeAll(before + SendAll(cuts, n, low)) == DecodeAll(before) + Flat(groups)
  {
    GroupsStream(cuts, n, low);
    DecodeAllAppend(before, SendAll(cuts, n, low));
    assert |Groups(cuts, n, low)[0]| == |cuts[0]|;
    hide Decode, Stream, AllMarked, Flat, SendAll, Groups;
  }

  /** So right after a reset they always do. */
  lemma BytesComeBackFresh(cuts: seq<seq<seq<byte>>>, n: nat, low: nat -> low5)
    requires Sendable(cuts)
    ensures Outputs(RESET, DecodeAll(SendAll(cuts, n, low))) == Wholes(cuts)
  {
    if cuts != [] {
      BytesComeBack([], cuts, n, low);
      assert [] + SendAll(cuts, n, low) == SendAll(cuts, n, low);
      assert [] + Wholes(cuts) == Wholes(cuts);
    }
  }
}
