/** The sender, the resynchronising receiver and the loss detector put together. */
module MsbcLink {
  import opened MsbcReceiver
  import PacketLoss
  import SbcHeaderCrc

  ghost predicate HoldsPacket(t: seq<bv8>, q: nat, pkt: seq<bv8>)
    requires |pkt| == FRAME
  {
    forall i | 0 <= i < FRAME && q + i < |t| :: t[q + i] == pkt[i]
  }

  /** From `h` on, every slot with a header holds its packet of a sender: packet `m` in slot `m`. What the
      controller puts in place of a packet that is lost carries no header. */
  ghost predicate Framed(t: seq<bv8>, h: nat, start: bv8, bodies: seq<seq<bv8>>)
    requires PacketLoss.Bodies(bodies)
  {
    && |t| <= h + FRAME * |bodies|
    && forall m | 0 <= m < |bodies| && h + FRAME * m + 2 < |t| && TripleAt(t, h + FRAME * m) ::
         HoldsPacket(t, h + FRAME * m, PacketLoss.Packet(PacketLoss.CounterAfter(start, m + 1), bodies[m]))
  }

  /** The first frame of a run cut at or behind the first header. */
  function FirstFrame(h: nat, syncAt: nat): nat {
    if syncAt + Low(h % FRAME) >= h then syncAt / FRAME else syncAt / FRAME + 1
  }

  /** And the slot it holds: the first one, or the second when the first lies wholly in the past. */
  function FirstPacket(h: nat, syncAt: nat): nat
    requires syncAt <= h
  {
    if syncAt + Low(h % FRAME) > h then 1 else 0
  }

  lemma PositionsAreFrames(h: nat, syncAt: nat, k: nat)
    requires syncAt <= h && syncAt % FRAME == 0
    ensures var (a, q) := (FirstFrame(h, syncAt), FramePosition(h, syncAt, k));
            && (k < a && h < syncAt + 2 * FRAME ==> q < h)
            && (k * FRAME < syncAt ==> q < h && k < a)
            && (k >= a && h < syncAt + 2 * FRAME ==> q == h + FRAME * (FirstPacket(h, syncAt) + k - a))
  {
    assert h == FRAME * (h / FRAME) + h % FRAME;
  }

  lemma FrameHeader(f: seq<bv8>, t: seq<bv8>, h: nat, q: nat)
    requires FrameExact(f, t, h, q)
    ensures q + 2 < |t| && (SbcHeaderCrc.SyncWord(f) <==> TripleAt(t, q))
  {
  }

  lemma PacketFrame(f: seq<bv8>, t: seq<bv8>, h: nat, start: bv8, bodies: seq<seq<bv8>>, m: nat)
    requires PacketLoss.Bodies(bodies) && PacketLoss.Encoded(bodies)
    requires Framed(t, h, start, bodies) && FrameExact(f, t, h, h + FRAME * m) && SbcHeaderCrc.SyncWord(f)
    ensures PacketLoss.Holds(f, start, bodies, m)
  {
    FrameHeader(f, t, h, h + FRAME * m);
    hide PacketLoss.Packet, PacketLoss.CounterAfter, SbcHeaderCrc.SyncWord, TripleAt;
    var pkt := PacketLoss.Packet(PacketLoss.CounterAfter(start, m + 1), bodies[m]);
    assert bodies[m] in bodies && HoldsPacket(t, h + FRAME * m, pkt);
    forall i | 0 <= i < FRAME - 1
      ensures f[i] == pkt[i]
    {
      assert t[h + FRAME * m + i] == pkt[i];
    }
  }

  lemma FramesFeed(out: seq<seq<bv8>>, t: seq<bv8>, h: nat, syncAt: nat, start: bv8, bodies: seq<seq<bv8>>)
    requires PacketLoss.Bodies(bodies) && PacketLoss.Encoded(bodies)
    requires OnlyOnGrid(t, h) && Framed(t, h, start, bodies) && AllExact(out, t, h, syncAt)
    requires syncAt <= h && syncAt % FRAME == 0 && (h < syncAt + 2 * FRAME || |out| * FRAME <= syncAt)
    ensures PacketLoss.Packets(out)
    ensures PacketLoss.Feed(out, FirstFrame(h, syncAt), start, bodies, FirstPacket(h, syncAt))
  {
    hide PacketLoss.Packet, PacketLoss.CounterAfter, SbcHeaderCrc.SyncWord, PacketLoss.Holds, TripleAt, Framed;
    var a, m := FirstFrame(h, syncAt), FirstPacket(h, syncAt);
    forall k | 0 <= k < |out|
      ensures |out[k]| == FRAME
      ensures SbcHeaderCrc.SyncWord(out[k]) ==> k >= a && PacketLoss.Holds(out[k], start, bodies, m + k - a)
    {
      var q := FramePosition(h, syncAt, k);
      PositionsAreFrames(h, syncAt, k);
      FrameHeader(out[k], t, h, q);
      if SbcHeaderCrc.SyncWord(out[k]) {
        assert OnGrid(q, h);
        PacketFrame(out[k], t, h, start, bodies, m + k - a);
      }
    }
  }

  /** End to end: whatever precedes the first packet, whichever later packets the controller replaces by
      the mute pattern and however the stream is cut into calls, the detector passes exactly the frames
      that hold a packet of the sender. */
  lemma PacketsThroughTheLink(cs: seq<CallData>, t: seq<bv8>, h: nat, start: bv8, bodies: seq<seq<bv8>>, k: nat,
                              pattern: bv8)
    requires Calls(cs) && Carries(cs, t) && DriftFree(t, h, pattern)
    requires PacketLoss.Bodies(bodies) && PacketLoss.Encoded(bodies) && Framed(t, h, start, bodies)
    requires PacketLoss.IsCounter(start) && pattern != 0x01 && k < |Run(cs, |cs|, pattern).1|
    ensures var (out, q) := (Run(cs, |cs|, pattern).1, FramePosition(h, SyncAt(cs, |cs|, h), k));
            && PacketLoss.Packets(out) && q + 2 < |t|
            && (PacketLoss.VerdictAt(out, k, pattern) == PacketLoss.PASS <==> q >= h && TripleAt(t, q))
  {
    hide Run, Framed, PacketLoss.VerdictAt, PacketLoss.Feed, Carries, SyncAt, TripleAt, SbcHeaderCrc.SyncWord,
      FramePosition, SlotGood;
    RunTracks(cs, t, h, |cs|, pattern);
    var (out, syncAt) := (Run(cs, |cs|, pattern).1, SyncAt(cs, |cs|, h));
    FramesFeed(out, t, h, syncAt, start, bodies);
    PacketLoss.ExactlyPacketsPass(out, FirstFrame(h, syncAt), start, bodies, FirstPacket(h, syncAt), k, pattern);
    var q := FramePosition(h, syncAt, k);
    assert FrameExact(out[k], t, h, q);
    FrameHeader(out[k], t, h, q);
    assert TripleAt(t, q) ==> OnGrid(q, h);
  }
}
