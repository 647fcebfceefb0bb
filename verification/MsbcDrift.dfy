/** Where the frames of one call are cut, by the bytes of the window. */
module MsbcDrift {
  import opened MsbcReceiver

  /** The sync byte of a packet, the low half of its sequence byte, and the mSBC sync word. */
  predicate HeaderBytes(w: seq<bv8>, x: nat)
    requires x + 2 < |w|
  {
    w[x] == 0x01 && w[x + 1] % 0x10 == 0x08 && w[x + 2] == 0xAD
  }

  lemma TripleByBytes(w: seq<bv8>, x: nat)
    requires x + 2 < |w|
    ensures TripleAt(w, x) <==> HeaderBytes(w, x)
  {
    var b := w[x + 1];
    assert b & 0x0f == b % 0x10;
  }

  /** Where frame `j` is expected: at the phase, or a frame later when that is too near the start. */
  function Expected(offset: nat, j: nat): nat {
    (if offset == 0 || offset == 1 then 60 + offset else offset) + 60 * j
  }

  /** A header a byte early is followed back, one in its place kept, one a byte late followed on, in this
      order; with none of them the frame begins where it is expected. Without synchronisation frames begin
      at the start of the window. */
  function Begins(w: seq<bv8>, s: Sync, j: nat): nat
    requires |w| == 181 && s.offset < 60 && j <= 1
  {
    var x := Expected(s.offset, j);
    if !s.synced then 60 * j
    else if HeaderBytes(w, x - 1) then x - 1
    else if HeaderBytes(w, x) then x
    else if HeaderBytes(w, x + 1) then x + 1
    else x
  }

  lemma StartBegins(w: seq<bv8>, s: Sync, j: nat)
    requires |w| == 181 && s.offset < 60 && j <= 1
    ensures Start(w, s, j) == Begins(w, s, j) && Begins(w, s, j) + 60 <= 182
  {
    if s.synced {
      var x := Expected(s.offset, j);
      assert Position(s, j) == x;
      TripleByBytes(w, x - 1);
      TripleByBytes(w, x);
      TripleByBytes(w, x + 1);
      hide TripleAt, HeaderBytes;
    }
  }

  /** A frame is the 60 bytes from there on, the last one from behind the window if it ends there. */
  lemma DriftFollowed(st: Window, msbc: seq<bv8>, pcmLen: nat, pattern: bv8, beyond: bv8, j: nat)
    requires st.Valid() && (|msbc| == 60 || |msbc| == 120)
    requires j < |Call(st, msbc, pcmLen, pattern, beyond).1|
    ensures var w := st.buf[..60] + msbc + st.buf[60 + |msbc|..];
            var x := Begins(w, Found(st, w, |msbc|), j);
            Call(st, msbc, pcmLen, pattern, beyond).1[j]
            == if x + 60 <= 181 then w[x..x + 60] else w[x..181] + [beyond]
  {
    var w := Fill(st.buf, msbc);
    hide Begins, Start, Trusted, Fill, Found;
    StartBegins(w, Found(st, w, |msbc|), j);
    FrameSlice(w, beyond, Begins(w, Found(st, w, |msbc|), j));
  }

  lemma FrameSlice(w: seq<bv8>, beyond: bv8, x: nat)
    requires |w| == 181 && x + 60 <= 182
    ensures FrameAt(w, beyond, x) == if x + 60 <= 181 then w[x..x + 60] else w[x..181] + [beyond]
  {
  }

  /** How many frames a call cuts: one for every 60 bytes that came, and no more than there is room for. */
  lemma FramesByRoom(st: Window, msbc: seq<bv8>, pcmLen: nat, pattern: bv8, beyond: bv8)
    requires st.Valid() && (|msbc| == 60 || |msbc| == 120)
    ensures var n, frames := |msbc| / 60, Call(st, msbc, pcmLen, pattern, beyond).1;
            |frames| == if pcmLen / 240 < n then pcmLen / 240 else n
  {
  }

  lemma AbnormalByBytes(w: seq<bv8>, x: nat, pattern: bv8, total: nat)
    requires 1 <= x && x + 3 < |w|
    ensures Abnormal(w, x, pattern, total) <==>
            && x >= total
            && !HeaderBytes(w, x - 1) && !HeaderBytes(w, x) && !HeaderBytes(w, x + 1)
            && !(w[x] == pattern && w[x + 1] % 0x10 == pattern % 0x10 && w[x + 2] == pattern)
  {
    TripleByBytes(w, x - 1);
    TripleByBytes(w, x);
    TripleByBytes(w, x + 1);
    var b := w[x + 1];
    assert b & 0x0f == b % 0x10 && pattern & 0x0f == pattern % 0x10;
    hide TripleAt, HeaderBytes;
  }

  /** Some frame expected at `x` shows neither such a header nor the mute pattern, and the header found in
      this call is not still to come. */
  ghost predicate Lost(w: seq<bv8>, s: Sync, j: nat, pattern: bv8)
    requires |w| == 181 && s.offset < 60 && j <= 1
  {
    var x := Expected(s.offset, j);
    && x >= s.total
    && !HeaderBytes(w, x - 1) && !HeaderBytes(w, x) && !HeaderBytes(w, x + 1)
    && !(w[x] == pattern && w[x + 1] % 0x10 == pattern % 0x10 && w[x + 2] == pattern)
  }

  lemma LostIsAbnormal(w: seq<bv8>, s: Sync, j: nat, pattern: bv8)
    requires |w| == 181 && s.offset < 60 && j <= 1
    ensures Abnormal(w, Position(s, j), pattern, s.total) <==> Lost(w, s, j, pattern)
  {
    AbnormalByBytes(w, Expected(s.offset, j), pattern, s.total);
    assert Position(s, j) == Expected(s.offset, j);
    hide Abnormal, HeaderBytes;
  }

  /** A call ends synchronised exactly when it was or became so and no frame of it is lost. */
  lemma SyncedByBytes(st: Window, msbc: seq<bv8>, pcmLen: nat, pattern: bv8, beyond: bv8)
    requires st.Valid() && (|msbc| == 60 || |msbc| == 120)
    ensures var w := st.buf[..60] + msbc + st.buf[60 + |msbc|..];
            var s := Found(st, w, |msbc|);
            Call(st, msbc, pcmLen, pattern, beyond).0.synced
            <==> s.synced && !Lost(w, s, 0, pattern) && (|msbc| == 120 ==> !Lost(w, s, 1, pattern))
  {
    var w := Fill(st.buf, msbc);
    TrustedFrames(w, Found(st, w, |msbc|), |msbc| / 60, pattern);
    hide Lost, Found, Frames, Trusted, Fill;
  }

  lemma TrustedFrames(w: seq<bv8>, s: Sync, n: nat, pattern: bv8)
    requires |w| == 181 && s.offset < 60 && (n == 1 || n == 2)
    ensures Trusted(w, s, n, pattern) <==> !Lost(w, s, 0, pattern) && (n == 2 ==> !Lost(w, s, 1, pattern))
  {
    hide Abnormal, Lost;
    LostIsAbnormal(w, s, 0, pattern);
    LostIsAbnormal(w, s, 1, pattern);
  }

  /** The synchronisation a call works with: its own, or the first header among as many bytes as came. */
  lemma FoundByBytes(st: Window, w: seq<bv8>, len: nat)
    requires st.Valid() && |w| == 181 && len <= 120
    ensures var s := Found(st, w, len);
            && (st.synced ==> s == Sync(true, st.offset, 0))
            && (!st.synced && s.synced ==>
                  && s.total < len && HeaderBytes(w, s.total) && s.offset == s.total % 60
                  && forall k | 0 <= k < s.total :: !HeaderBytes(w, k))
            && (!st.synced && !s.synced ==>
                  s.offset == st.offset && s.total == 0 && forall k | 0 <= k < len :: !HeaderBytes(w, k))
  {
    forall k | 0 <= k < len
      ensures TripleAt(w, k) <==> HeaderBytes(w, k)
    {
      TripleByBytes(w, k);
    }
    hide TripleAt, HeaderBytes;
  }

  /** The next window begins with the last 60 bytes that came. */
  lemma WindowMovesOn(st: Window, msbc: seq<bv8>, pcmLen: nat, pattern: bv8, beyond: bv8)
    requires st.Valid() && (|msbc| == 60 || |msbc| == 120)
    ensures Call(st, msbc, pcmLen, pattern, beyond).0.buf[..60] == msbc[|msbc| - 60..]
  {
    hide Found, Trusted, Frames;
  }
}
