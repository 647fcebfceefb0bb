/** The mSBC receive path (`process_downlink_msbc_frames`): a sliding window over the byte stream from
    the link, searched for the first frame header and cut into 60-byte frames from there on. Decoding
    and concealment of the frames are not modelled. */
module MsbcReceiver {
  import opened Helpers

  const FRAME := 60
  const WINDOW := 3 * FRAME + 1
  const PCM_FRAME := 240

  // ---------------------------------------------------------------------------------------------
  // One call
  // ---------------------------------------------------------------------------------------------

  /** A frame header: synchronisation byte, sequence byte, mSBC sync word. */
  predicate TripleAt(w: seq<bv8>, x: nat)
    requires x + 2 < |w|
  {
    w[x] == 0x01 && w[x + 1] & 0x0f == 0x08 && w[x + 2] == 0xad
  }

  predicate MuteAt(w: seq<bv8>, x: nat, pattern: bv8)
    requires x + 2 < |w|
  {
    w[x] == pattern && w[x + 1] & 0x0f == pattern & 0x0f && w[x + 2] == pattern
  }

  /** The first header at `i` or later, or `len`. */
  function Search(w: seq<bv8>, len: nat, i: nat): (r: nat)
    requires i <= len && len + 2 <= |w|
    ensures i <= r <= len && (r < len ==> TripleAt(w, r)) && forall k | i <= k < r :: !TripleAt(w, k)
    decreases len - i
  {
    if i == len || TripleAt(w, i) then i else Search(w, len, i + 1)
  }

  function Low(offset: nat): nat {
    if offset <= 1 then offset + FRAME else offset
  }

  /** How far the header has moved from `x`. */
  function Drift(w: seq<bv8>, x: nat): int
    requires 1 <= x && x + 3 < |w|
  {
    if TripleAt(w, x - 1) then -1
    else if TripleAt(w, x) then 0
    else if TripleAt(w, x + 1) then 1
    else 0
  }

  predicate HeaderNear(w: seq<bv8>, x: nat)
    requires 1 <= x && x + 3 < |w|
  {
    TripleAt(w, x - 1) || TripleAt(w, x) || TripleAt(w, x + 1)
  }

  /** No header within one byte of `x`, no mute pattern, and not before the header just found. */
  predicate Abnormal(w: seq<bv8>, x: nat, pattern: bv8, total: nat)
    requires 1 <= x && x + 3 < |w|
  {
    !HeaderNear(w, x) && !MuteAt(w, x, pattern) && x >= total
  }

  /** Byte `k` of the window; `beyond` is whatever lies in memory behind its end. */
  function ByteAt(w: seq<bv8>, beyond: bv8, k: nat): bv8
    requires k <= |w|
  {
    if k < |w| then w[k] else beyond
  }

  function FrameAt(w: seq<bv8>, beyond: bv8, x: nat): (f: seq<bv8>)
    requires x + FRAME <= |w| + 1
    ensures |f| == FRAME && forall i | 0 <= i < FRAME :: f[i] == ByteAt(w, beyond, x + i)
  {
    seq(FRAME, i requires 0 <= i < FRAME => ByteAt(w, beyond, x + i))
  }

  datatype Window = Window(buf: seq<bv8>, synced: bool, offset: nat) {
    predicate Valid() {
      |buf| == WINDOW && offset < FRAME
    }
  }

  function Fill(buf: seq<bv8>, msbc: seq<bv8>): (w: seq<bv8>)
    requires |buf| == WINDOW && |msbc| <= 2 * FRAME
    ensures |w| == WINDOW
  {
    buf[..FRAME] + msbc + buf[FRAME + |msbc|..]
  }

  /** The synchronisation a call works with: the one it has, or the one its search finds. */
  datatype Sync = Sync(synced: bool, offset: nat, total: nat)

  function Found(st: Window, w: seq<bv8>, len: nat): (s: Sync)
    requires st.Valid() && |w| == WINDOW && len <= 2 * FRAME
    ensures s.offset < FRAME
  {
    if st.synced then Sync(true, st.offset, 0)
    else
      var i := Search(w, len, 0);
      if i < len then Sync(true, i % FRAME, i) else Sync(false, st.offset, 0)
  }

  function Position(s: Sync, j: nat): nat {
    Low(s.offset) + j * FRAME
  }

  ghost predicate Trusted(w: seq<bv8>, s: Sync, n: nat, pattern: bv8)
    requires |w| == WINDOW && s.offset < FRAME && n <= 2
  {
    forall j | 0 <= j < n :: !Abnormal(w, Position(s, j), pattern, s.total)
  }

  /** Where frame `j` is cut. */
  function Start(w: seq<bv8>, s: Sync, j: nat): nat
    requires |w| == WINDOW && s.offset < FRAME && j <= 1
  {
    if s.synced then Position(s, j) + Drift(w, Position(s, j)) else j * FRAME
  }

  function Frames(w: seq<bv8>, s: Sync, count: nat, beyond: bv8): (f: seq<seq<bv8>>)
    requires |w| == WINDOW && s.offset < FRAME && count <= 2
    ensures |f| == count && forall j | 0 <= j < count :: f[j] == FrameAt(w, beyond, Start(w, s, j))
  {
    seq(count, j requires 0 <= j < count => FrameAt(w, beyond, Start(w, s, j)))
  }

  /** The one case in which a frame reaches behind the end of the window: phase 1, the second frame of a
      call, and a header that has moved one byte on. */
  lemma ReadsBehindWindow(w: seq<bv8>, s: Sync, j: nat)
    requires |w| == WINDOW && s.offset < FRAME && j <= 1
    ensures Start(w, s, j) + FRAME > WINDOW <==> s.synced && s.offset == 1 && j == 1 && Drift(w, Position(s, 1)) == 1
  {
    hide TripleAt;
    if s.synced {
      var x := Position(s, j);
      assert Drift(w, x) <= 1 && x <= 2 * FRAME + 1;
    }
  }

  ghost function Call(st: Window, msbc: seq<bv8>, pcmLen: nat, pattern: bv8, beyond: bv8): (Window, seq<seq<bv8>>)
    requires st.Valid() && (|msbc| == FRAME || |msbc| == 2 * FRAME)
  {
    var w := Fill(st.buf, msbc);
    var s := Found(st, w, |msbc|);
    var n := |msbc| / FRAME;
    (Window(w[|msbc|..|msbc| + FRAME] + w[FRAME..], s.synced && Trusted(w, s, n, pattern), s.offset),
     Frames(w, s, Min(n, pcmLen / PCM_FRAME), beyond))
  }

  /** The window before the first call. */
  function Fresh(): Window {
    Window(Repeat(0 as bv8, WINDOW), false, 0)
  }

  /** 120 bytes with a header at phase 1 and the next one a byte late. */
  function LateHeader(): (msbc: seq<bv8>)
    ensures |msbc| == 2 * FRAME
    ensures forall i | 0 <= i < 2 * FRAME ::
              msbc[i] == if i == 1 || i == 62 then 0x01 else if i == 2 || i == 63 then 0x08
                         else if i == 3 || i == 64 then 0xad else 0
  {
    seq(2 * FRAME, i requires 0 <= i < 2 * FRAME =>
      if i == 1 || i == 62 then 0x01 else if i == 2 || i == 63 then 0x08 else if i == 3 || i == 64 then 0xad else 0)
  }

  lemma LateHeaderWindow(w: seq<bv8>)
    requires w == Fill(Fresh().buf, LateHeader())
    ensures Found(Fresh(), w, 2 * FRAME) == Sync(true, 1, 61) && Drift(w, 121) == 1
  {
    forall k | 0 <= k < WINDOW
      ensures w[k] == if FRAME <= k < 3 * FRAME then LateHeader()[k - FRAME] else 0
    {
    }
    assert w[61] == 0x01 && w[62] == 0x08 && w[63] == 0xad && w[122] == 0x01 && w[123] == 0x08 && w[124] == 0xad;
    assert w[120] == 0 && w[121] == 0 && forall k | 0 <= k < 61 :: w[k] == 0;
    hide Fill, LateHeader, Repeat;
    var r := Search(w, 2 * FRAME, 0);
    assert TripleAt(w, 61) && TripleAt(w, 122) && !TripleAt(w, 120) && !TripleAt(w, 121);
    assert r == 61;
  }

  /** The very first call can read behind its window: the last byte of its second frame is whatever lies
      there. */
  lemma FirstCallReadsBehindWindow(pattern: bv8, beyond: bv8)
    ensures var frames := Call(Fresh(), LateHeader(), 2 * PCM_FRAME, pattern, beyond).1;
            |frames| == 2 && frames[1][FRAME - 1] == beyond
  {
    var w := Fill(Fresh().buf, LateHeader());
    LateHeaderWindow(w);
    var s := Sync(true, 1, 61);
    assert Start(w, s, 1) == 122;
    hide Found, Drift, Fill, LateHeader;
  }

  class Receiver {
    const bufAll: array<bv8>
    var findFirstSync: bool
    var offset: nat

    ghost predicate Valid()
      reads this
    {
      bufAll.Length == WINDOW && offset < FRAME
    }

    ghost function View(): (st: Window)
      requires Valid()
      reads this, bufAll
      ensures st.Valid()
    {
      Window(bufAll[..], findFirstSync, offset)
    }

    constructor ()
      ensures Valid() && fresh(bufAll) && View() == Fresh()
    {
      bufAll := new bv8[WINDOW](_ => 0);
      findFirstSync, offset := false, 0;
    }

    method CopyIn(msbc: seq<bv8>)
      requires Valid() && |msbc| <= 2 * FRAME
      modifies bufAll
      ensures bufAll[..] == Fill(old(bufAll[..]), msbc)
    {
      var i := 0;
      while i < |msbc|
        invariant 0 <= i <= |msbc|
        invariant forall k | 0 <= k < FRAME :: bufAll[k] == old(bufAll[k])
        invariant forall k | FRAME <= k < FRAME + i :: bufAll[k] == msbc[k - FRAME]
        invariant forall k | FRAME + i <= k < WINDOW :: bufAll[k] == old(bufAll[k])
      {
        bufAll[i + FRAME] := msbc[i];
        i := i + 1;
      }
    }

    method FindSync(len: nat) returns (i: nat)
      requires Valid() && len <= 2 * FRAME
      ensures i == Search(bufAll[..], len, 0)
    {
      i := 0;
      while i < len
        invariant 0 <= i <= len && Search(bufAll[..], len, 0) == Search(bufAll[..], len, i)
      {
        if bufAll[i] == 0x01 && bufAll[i + 1] & 0x0f == 0x08 && bufAll[i + 2] == 0xad {
          break;
        }
        i := i + 1;
      }
    }

    /** The flag and the drift of the frame at `x`. */
    method CheckFrame(x: nat, pattern: bv8, total: nat) returns (flag: bv8, drift: int)
      requires Valid() && 2 <= x && x + 3 < WINDOW
      ensures drift == Drift(bufAll[..], x)
      ensures flag == 0 || flag == 1 || flag == 3
      ensures flag == 3 <==> Abnormal(bufAll[..], x, pattern, total)
    {
      var headerm1, header0, header1 := bufAll[x - 1], bufAll[x], bufAll[x + 1];
      var header2, header3 := bufAll[x + 2], bufAll[x + 3];
      drift := 0;
      if headerm1 == 0x01 && header0 & 0x0f == 0x08 && header1 == 0xad {
        flag, drift := 0, -1;
      } else if header0 == 0x01 && header1 & 0x0f == 0x08 && header2 == 0xad {
        flag := 0;
      } else if header1 == 0x01 && header2 & 0x0f == 0x08 && header3 == 0xad {
        flag, drift := 0, 1;
      } else if header0 == pattern && header1 & 0x0f == pattern & 0x0f && header2 == pattern {
        flag := 1;
      } else if x >= total {
        flag := 3;
      } else {
        flag := 1;
      }
    }

    /** The check of every frame position of a call; the flags are or-ed together. */
    method CheckAgain(n: nat, s: Sync, pattern: bv8) returns (drift: seq<int>, value: bv8)
      requires Valid() && n <= 2 && s.offset < FRAME
      ensures |drift| == n && forall j | 0 <= j < n :: drift[j] == Drift(bufAll[..], Position(s, j))
      ensures value > 1 <==> !Trusted(bufAll[..], s, n, pattern)
    {
      drift, value := [], 0;
      var j := 0;
      while j < n
        invariant 0 <= j <= n
        invariant |drift| == j && forall k | 0 <= k < j :: drift[k] == Drift(bufAll[..], Position(s, k))
        invariant value == 0 || value == 1 || value == 3
        invariant value == 3 <==> !Trusted(bufAll[..], s, j, pattern)
      {
        var flag, d := CheckFrame(Low(s.offset) + j * FRAME, pattern, s.total);
        assert Trusted(bufAll[..], s, j + 1, pattern) <==>
               Trusted(bufAll[..], s, j, pattern) && !Abnormal(bufAll[..], Position(s, j), pattern, s.total);
        drift, value := drift + [d], value | flag;
        j := j + 1;
      }
    }

    method Extract(x: nat, beyond: bv8) returns (frame: seq<bv8>)
      requires Valid() && x + FRAME <= WINDOW + 1
      ensures frame == FrameAt(bufAll[..], beyond, x)
    {
      var dec := new bv8[FRAME];
      var i := 0;
      while i < FRAME
        invariant 0 <= i <= FRAME
        invariant forall k | 0 <= k < i :: dec[k] == ByteAt(bufAll[..], beyond, x + k)
      {
        if x + i < WINDOW {
          dec[i] := bufAll[x + i];
        } else {
          dec[i] := beyond;
        }
        i := i + 1;
      }
      frame := dec[..];
    }

    method Shift(len: nat)
      requires Valid() && FRAME <= len <= 2 * FRAME
      modifies bufAll
      ensures bufAll[..] == old(bufAll[len..len + FRAME]) + old(bufAll[FRAME..])
    {
      var i := 0;
      while i < FRAME
        invariant 0 <= i <= FRAME
        invariant bufAll[..i] == old(bufAll[len..len + i])
        invariant bufAll[FRAME..] == old(bufAll[FRAME..])
        invariant forall k | i <= k < FRAME :: bufAll[k] == old(bufAll[k])
      {
        bufAll[i] := bufAll[i + len];
        i := i + 1;
      }
      assert bufAll[..] == bufAll[..FRAME] + bufAll[FRAME..];
    }

    /** The sync search of a call that has none. */
    method Synchronise(len: nat) returns (s: Sync)
      requires Valid() && len <= 2 * FRAME
      modifies `findFirstSync, `offset
      ensures Valid() && s == Found(old(View()), bufAll[..], len)
      ensures findFirstSync == s.synced && offset == s.offset
    {
      var total := 0;
      if !findFirstSync {
        var i := FindSync(len);
        if i < len {
          findFirstSync, offset, total := true, i % FRAME, i;
        }
      }
      s := Sync(findFirstSync, offset, total);
    }

    /** The frames of a call, cut where `s` and `drift` say. */
    method ExtractAll(count: nat, s: Sync, drift: seq<int>, beyond: bv8) returns (frames: seq<seq<bv8>>)
      requires Valid() && count <= |drift| <= 2 && s.offset < FRAME
      requires forall j | 0 <= j < |drift| ::
                 Start(bufAll[..], s, j) == (if s.synced then Position(s, j) else j * FRAME) + drift[j]
      ensures frames == Frames(bufAll[..], s, count, beyond)
    {
      frames := [];
      var low := if s.synced then Low(s.offset) else 0;
      var counter := 0;
      while counter < count
        invariant 0 <= counter <= count && frames == Frames(bufAll[..], s, counter, beyond)
      {
        var frame := Extract(low + drift[counter] + counter * FRAME, beyond);
        frames := frames + [frame];
        counter := counter + 1;
      }
    }

    /** `process_downlink_msbc_frames` up to the loss detection. */
    method Process(msbc: seq<bv8>, pcmLen: nat, pattern: bv8, beyond: bv8) returns (frames: seq<seq<bv8>>)
      requires Valid() && (|msbc| == FRAME || |msbc| == 2 * FRAME)
      modifies this, bufAll
      ensures Valid() && (View(), frames) == Call(old(View()), msbc, pcmLen, pattern, beyond)
    {
      var n := |msbc| / FRAME;
      CopyIn(msbc);
      var s := Synchronise(|msbc|);
      var drift, value := seq(n, _ => 0), 0;
      if findFirstSync {
        drift, value := CheckAgain(n, s, pattern);
        if value > 1 {
          findFirstSync := false;
        }
      }
      frames := ExtractAll(Min(n, pcmLen / PCM_FRAME), s, drift, beyond);
      Shift(|msbc|);
    }
  }

  // ---------------------------------------------------------------------------------------------
  // Streams without drift
  // ---------------------------------------------------------------------------------------------

  /** `t` is what the window has shown so far: the zeros it starts with, then the stream. Slots of 60
      bytes begin at `h`, and a header stands only where a slot begins. */
  ghost predicate OnlyOnGrid(t: seq<bv8>, h: nat) {
    forall x: nat | x + 2 < |t| && TripleAt(t, x) :: OnGrid(x, h)
  }

  /** A slot that keeps the synchronisation: a packet, or the pattern the controller puts in place of one
      that is lost. */
  predicate SlotGood(t: seq<bv8>, x: nat, pattern: bv8)
    requires x + 2 < |t|
  {
    TripleAt(t, x) || MuteAt(t, x, pattern)
  }

  /** The first slot holds a header, and every later one a header or the mute pattern. */
  ghost predicate DriftFree(t: seq<bv8>, h: nat, pattern: bv8) {
    && OnlyOnGrid(t, h) && (h + 2 < |t| ==> TripleAt(t, h))
    && forall x: nat | x + 2 < |t| && OnGrid(x, h) :: SlotGood(t, x, pattern)
  }

  predicate OnGrid(x: nat, h: nat) {
    x >= h && x % FRAME == h % FRAME
  }

  /** The window shows the stream from position `p` on. */
  ghost predicate Shows(w: seq<bv8>, t: seq<bv8>, p: nat, len: nat)
    requires |w| == WINDOW && len <= 2 * FRAME
  {
    p + FRAME + len <= |t| && forall k | 0 <= k < FRAME + len :: w[k] == t[p + k]
  }

  lemma WindowHeader(w: seq<bv8>, t: seq<bv8>, p: nat, len: nat, x: nat, pattern: bv8)
    requires |w| == WINDOW && len <= 2 * FRAME && Shows(w, t, p, len) && x + 2 < FRAME + len
    ensures TripleAt(w, x) <==> TripleAt(t, p + x)
    ensures MuteAt(w, x, pattern) <==> MuteAt(t, p + x, pattern)
  {
  }

  /** While no header has come, the search finds the first one as soon as it is in reach. */
  lemma SearchFindsFirst(w: seq<bv8>, t: seq<bv8>, h: nat, p: nat, len: nat)
    requires |w| == WINDOW && len <= 2 * FRAME && Shows(w, t, p, len) && p <= h
    requires OnlyOnGrid(t, h) && (h + 2 < |t| ==> TripleAt(t, h))
    ensures Search(w, len, 0) == if h < p + len then h - p else len
  {
    hide TripleAt;
    var r := Search(w, len, 0);
    if r < len {
      WindowHeader(w, t, p, len, r, 0);
    }
    if h < p + len {
      WindowHeader(w, t, p, len, h - p, 0);
    }
  }

  lemma GridPosition(p: nat, h: nat, j: nat)
    requires p % FRAME == 0
    ensures var q := p + Low(h % FRAME) + j * FRAME;
            q % FRAME == h % FRAME && (q - 1) % FRAME != h % FRAME && (q + 1) % FRAME != h % FRAME
  {
    var q := p + Low(h % FRAME) + j * FRAME;
    var m := p / FRAME + j + (if h % FRAME <= 1 then 1 else 0);
    assert q == h % FRAME + FRAME * m;
  }

  /** At the right phase a position never looks drifted, and looks abnormal exactly when the slot there
      holds neither a header nor the mute pattern and is not before the header just found. */
  lemma PositionJudged(w: seq<bv8>, t: seq<bv8>, h: nat, p: nat, len: nat, s: Sync, j: nat, pattern: bv8)
    requires |w| == WINDOW && len <= 2 * FRAME && Shows(w, t, p, len) && OnlyOnGrid(t, h)
    requires p % FRAME == 0 && s.offset == h % FRAME && j < len / FRAME
    ensures Drift(w, Position(s, j)) == 0 && p + Position(s, j) + 2 < |t|
    ensures Abnormal(w, Position(s, j), pattern, s.total) <==>
            Position(s, j) >= s.total && !SlotGood(t, p + Position(s, j), pattern)
  {
    hide TripleAt, MuteAt;
    var x := Position(s, j);
    GridPosition(p, h, j);
    WindowHeader(w, t, p, len, x - 1, pattern);
    WindowHeader(w, t, p, len, x, pattern);
    WindowHeader(w, t, p, len, x + 1, pattern);
  }

  /** What the receiver knows between calls, `p` bytes into any stream whose headers keep the grid. */
  ghost predicate Following(st: Window, t: seq<bv8>, h: nat, p: nat) {
    && st.Valid() && p % FRAME == 0 && p + FRAME <= |t| && st.buf[..FRAME] == t[p..p + FRAME]
    && (st.synced ==> st.offset == h % FRAME)
  }

  /** And on a drift-free stream it is synchronised exactly when the first header is behind. */
  ghost predicate Tracking(st: Window, t: seq<bv8>, h: nat, p: nat) {
    Following(st, t, h, p) && (st.synced <==> h < p)
  }

  lemma FillShows(st: Window, t: seq<bv8>, h: nat, p: nat, msbc: seq<bv8>)
    requires Following(st, t, h, p) && |msbc| <= 2 * FRAME
    requires p + FRAME + |msbc| <= |t| && msbc == t[p + FRAME..p + FRAME + |msbc|]
    ensures Shows(Fill(st.buf, msbc), t, p, |msbc|)
  {
    var w := Fill(st.buf, msbc);
    forall k | 0 <= k < FRAME + |msbc|
      ensures w[k] == t[p + k]
    {
      if k < FRAME {
        assert w[k] == st.buf[..FRAME][k];
      } else {
        assert w[k] == msbc[k - FRAME];
      }
    }
  }

  lemma SamePhase(h: nat, p: nat)
    requires p % FRAME == 0 && p <= h
    ensures (h - p) % FRAME == h % FRAME
  {
  }

  /** A search on a grid finds its phase, and finds something exactly when a header begins in reach. */
  lemma FoundOnGrid(st: Window, t: seq<bv8>, h: nat, p: nat, w: seq<bv8>, len: nat)
    requires Following(st, t, h, p) && |w| == WINDOW && len <= 2 * FRAME && Shows(w, t, p, len) && OnlyOnGrid(t, h)
    ensures var s := Found(st, w, len);
            && (s.synced ==> s.offset == h % FRAME)
            && (st.synced ==> s == Sync(true, h % FRAME, 0))
            && (!st.synced ==> (s.synced <==> exists x | p <= x < p + len :: TripleAt(t, x)))
  {
    hide TripleAt;
    if !st.synced {
      var r := Search(w, len, 0);
      if r < len {
        WindowHeader(w, t, p, len, r, 0);
        assert (p + r) % FRAME == h % FRAME;
        SamePhase(p + r, p);
      } else {
        forall x | p <= x < p + len
          ensures !TripleAt(t, x)
        {
          WindowHeader(w, t, p, len, x - p, 0);
        }
      }
    }
  }

  lemma FoundSteady(st: Window, t: seq<bv8>, h: nat, p: nat, w: seq<bv8>, len: nat, pattern: bv8)
    requires Tracking(st, t, h, p) && |w| == WINDOW && len <= 2 * FRAME && Shows(w, t, p, len)
    requires DriftFree(t, h, pattern)
    ensures var s := Found(st, w, len);
            && (s.synced <==> h < p + len) && (s.synced ==> h <= p + s.total)
  {
    hide TripleAt, Shows, Search;
    if !st.synced {
      SearchFindsFirst(w, t, h, p, len);
    }
  }

  /** The bytes of `frame` that had arrived, `seen` bytes into the stream, are those at `q`. */
  ghost predicate CutAt(frame: seq<bv8>, t: seq<bv8>, q: nat, seen: nat) {
    |frame| == FRAME && seen <= |t| && forall i | 0 <= i < FRAME && q + i < seen :: frame[i] == t[q + i]
  }

  lemma FrameCut(w: seq<bv8>, t: seq<bv8>, p: nat, len: nat, x: nat, beyond: bv8)
    requires |w| == WINDOW && len <= 2 * FRAME && Shows(w, t, p, len) && x <= 2 * FRAME + 1
    ensures CutAt(FrameAt(w, beyond, x), t, p + x, p + FRAME + len)
  {
  }

  /** The slots of a call that the receiver judges: those not before the header it has just found. */
  ghost predicate SlotsGood(t: seq<bv8>, p: nat, s: Sync, n: nat, pattern: bv8) {
    forall j | 0 <= j < n :: Position(s, j) < s.total ||
                             (p + Position(s, j) + 2 < |t| && SlotGood(t, p + Position(s, j), pattern))
  }

  /** Every frame of a call is cut at the header phase, or at the call's own start before any sync; and
      the synchronisation is trusted exactly when all slots judged are good. */
  lemma FramesCut(w: seq<bv8>, t: seq<bv8>, h: nat, p: nat, len: nat, s: Sync, pattern: bv8, count: nat, beyond: bv8)
    requires |w| == WINDOW && (len == FRAME || len == 2 * FRAME) && Shows(w, t, p, len) && OnlyOnGrid(t, h)
    requires p % FRAME == 0 && s.offset < FRAME && (s.synced ==> s.offset == h % FRAME)
    requires count <= len / FRAME
    ensures s.synced ==> (Trusted(w, s, len / FRAME, pattern) <==> SlotsGood(t, p, s, len / FRAME, pattern))
    ensures AllCut(Frames(w, s, count, beyond), t, p + (if s.synced then Low(h % FRAME) else 0), p + FRAME + len)
  {
    hide TripleAt, Shows, CutAt, FrameAt, SlotGood, Abnormal, Drift;
    if s.synced {
      forall j | 0 <= j < len / FRAME
        ensures Drift(w, Position(s, j)) == 0 && p + Position(s, j) + 2 < |t|
        ensures Abnormal(w, Position(s, j), pattern, s.total) <==>
                Position(s, j) >= s.total && !SlotGood(t, p + Position(s, j), pattern)
      {
        PositionJudged(w, t, h, p, len, s, j, pattern);
      }
    }
    forall j | 0 <= j < count
      ensures CutAt(Frames(w, s, count, beyond)[j], t,
                    p + (if s.synced then Low(h % FRAME) else 0) + j * FRAME, p + FRAME + len)
    {
      FrameCut(w, t, p, len, Start(w, s, j), beyond);
    }
  }

  ghost predicate AllCut(frames: seq<seq<bv8>>, t: seq<bv8>, q: nat, seen: nat) {
    forall j | 0 <= j < |frames| :: CutAt(frames[j], t, q + j * FRAME, seen)
  }

  lemma WindowMoves(w: seq<bv8>, t: seq<bv8>, p: nat, len: nat)
    requires |w| == WINDOW && FRAME <= len <= 2 * FRAME && Shows(w, t, p, len)
    ensures (w[len..len + FRAME] + w[FRAME..])[..FRAME] == t[p + len..p + len + FRAME]
  {
  }

  /** One call on any stream whose headers keep the grid, whatever its other slots hold: it ends
      synchronised exactly when it has or finds a header and every slot judged is good. */
  lemma CallOnGrid(st: Window, t: seq<bv8>, h: nat, p: nat, msbc: seq<bv8>, pcmLen: nat, pattern: bv8, beyond: bv8)
    requires Following(st, t, h, p) && OnlyOnGrid(t, h) && (|msbc| == FRAME || |msbc| == 2 * FRAME)
    requires p + FRAME + |msbc| <= |t| && msbc == t[p + FRAME..p + FRAME + |msbc|]
    ensures var (after, frames) := Call(st, msbc, pcmLen, pattern, beyond);
            var s := Found(st, Fill(st.buf, msbc), |msbc|);
            && Following(after, t, h, p + |msbc|)
            && (after.synced <==> s.synced && SlotsGood(t, p, s, |msbc| / FRAME, pattern))
            && |frames| == Min(|msbc| / FRAME, pcmLen / PCM_FRAME)
            && AllCut(frames, t, p + (if s.synced then Low(h % FRAME) else 0), p + FRAME + |msbc|)
  {
    hide Shows, AllCut, Trusted, Found, OnlyOnGrid, SlotsGood, Frames;
    var w, len := Fill(st.buf, msbc), |msbc|;
    FillShows(st, t, h, p, msbc);
    FoundOnGrid(st, t, h, p, w, len);
    FramesCut(w, t, h, p, len, Found(st, w, len), pattern, Min(len / FRAME, pcmLen / PCM_FRAME), beyond);
    WindowMoves(w, t, p, len);
  }

  /** Where the slots of a call of a synchronised receiver begin. */
  function SlotAt(p: nat, h: nat, j: nat): nat {
    p + Low(h % FRAME) + j * FRAME
  }

  /** When a synchronised receiver gives up: exactly when a slot of the call holds neither a header nor
      the mute pattern. */
  lemma SyncLostExactly(st: Window, t: seq<bv8>, h: nat, p: nat, msbc: seq<bv8>, pcmLen: nat, pattern: bv8, beyond: bv8)
    requires Following(st, t, h, p) && st.synced && OnlyOnGrid(t, h) && (|msbc| == FRAME || |msbc| == 2 * FRAME)
    requires p + FRAME + |msbc| <= |t| && msbc == t[p + FRAME..p + FRAME + |msbc|]
    ensures Call(st, msbc, pcmLen, pattern, beyond).0.synced <==>
            forall j | 0 <= j < |msbc| / FRAME :: SlotGood(t, SlotAt(p, h, j), pattern)
  {
    hide Call, SlotGood, OnlyOnGrid;
    CallOnGrid(st, t, h, p, msbc, pcmLen, pattern, beyond);
    FillShows(st, t, h, p, msbc);
    FoundOnGrid(st, t, h, p, Fill(st.buf, msbc), |msbc|);
    var s, n := Sync(true, h % FRAME, 0), |msbc| / FRAME;
    assert forall j: nat :: SlotAt(p, h, j) == p + Position(s, j);
    if SlotsGood(t, p, s, n, pattern) {
      forall j | 0 <= j < n
        ensures SlotGood(t, SlotAt(p, h, j), pattern)
      {
        assert Position(s, j) >= s.total;
      }
    }
  }

  /** On a drift-free stream no slot is ever bad. */
  lemma NoBadSlot(t: seq<bv8>, h: nat, p: nat, s: Sync, n: nat, pattern: bv8)
    requires DriftFree(t, h, pattern) && p % FRAME == 0 && s.offset == h % FRAME && h <= p + s.total
    requires n <= 2 && p + FRAME + n * FRAME <= |t|
    ensures SlotsGood(t, p, s, n, pattern)
  {
    hide TripleAt, SlotGood;
    forall j | 0 <= j < n
      ensures Position(s, j) < s.total || (p + Position(s, j) + 2 < |t| && SlotGood(t, p + Position(s, j), pattern))
    {
      GridPosition(p, h, j);
      assert p + Position(s, j) >= h ==> OnGrid(p + Position(s, j), h);
    }
  }

  /** One call on a drift-free stream: the synchronisation is found exactly when the first header is in
      reach, is never lost again, and the frames are cut at the header phase. */
  lemma CallTracks(st: Window, t: seq<bv8>, h: nat, p: nat, msbc: seq<bv8>, pcmLen: nat, pattern: bv8, beyond: bv8)
    requires Tracking(st, t, h, p) && DriftFree(t, h, pattern) && (|msbc| == FRAME || |msbc| == 2 * FRAME)
    requires p + FRAME + |msbc| <= |t| && msbc == t[p + FRAME..p + FRAME + |msbc|]
    ensures var (after, frames) := Call(st, msbc, pcmLen, pattern, beyond);
            && Tracking(after, t, h, p + |msbc|)
            && |frames| == Min(|msbc| / FRAME, pcmLen / PCM_FRAME)
            && AllCut(frames, t, p + (if h < p + |msbc| then Low(h % FRAME) else 0), p + FRAME + |msbc|)
  {
    hide AllCut, OnlyOnGrid, SlotsGood, Call, Found;
    var w, len := Fill(st.buf, msbc), |msbc|;
    CallOnGrid(st, t, h, p, msbc, pcmLen, pattern, beyond);
    FillShows(st, t, h, p, msbc);
    FoundOnGrid(st, t, h, p, w, len);
    FoundSteady(st, t, h, p, w, len, pattern);
    var s := Found(st, w, len);
    if s.synced {
      NoBadSlot(t, h, p, s, len / FRAME, pattern);
    }
  }

  // ---------------------------------------------------------------------------------------------
  // Runs of calls
  // ---------------------------------------------------------------------------------------------

  datatype CallData = CallData(msbc: seq<bv8>, beyond: bv8)

  ghost predicate Calls(cs: seq<CallData>) {
    forall c | c in cs :: |c.msbc| == FRAME || |c.msbc| == 2 * FRAME
  }

  /** Bytes received in the first `n` calls. */
  ghost function Total(cs: seq<CallData>, n: nat): (p: nat)
    requires Calls(cs) && n <= |cs|
    ensures p % FRAME == 0
  {
    if n == 0 then 0 else Total(cs, n - 1) + |cs[n - 1].msbc|
  }

  /** The calls carry the stream `t` behind the 60 zeros the window starts with. */
  ghost predicate Carries(cs: seq<CallData>, t: seq<bv8>) {
    && Calls(cs) && |t| == FRAME + Total(cs, |cs|) && (forall k | 0 <= k < FRAME :: t[k] == 0)
    && forall n: nat | n < |cs| ::
         Total(cs, n) + FRAME + |cs[n].msbc| <= |t|
         && cs[n].msbc == t[Total(cs, n) + FRAME..Total(cs, n) + FRAME + |cs[n].msbc|]
  }

  /** The window and all frames after the first `n` calls, each asking for all the PCM it can get. */
  ghost function Run(cs: seq<CallData>, n: nat, pattern: bv8): (r: (Window, seq<seq<bv8>>))
    requires Calls(cs) && n <= |cs|
    ensures r.0.Valid()
  {
    if n == 0 then (Fresh(), [])
    else
      var (st, out) := Run(cs, n - 1, pattern);
      var (after, frames) := Call(st, cs[n - 1].msbc, 2 * PCM_FRAME, pattern, cs[n - 1].beyond);
      (after, out + frames)
  }

  /** How many bytes had come when the call that found the first header began. */
  ghost function SyncAt(cs: seq<CallData>, n: nat, h: nat): (p: nat)
    requires Calls(cs) && n <= |cs|
    ensures p <= h && p % FRAME == 0
    ensures Total(cs, n) <= h ==> p == Total(cs, n)
    ensures h < Total(cs, n) ==> h < p + 2 * FRAME && p < Total(cs, n)
  {
    if Total(cs, n) <= h then Total(cs, n)
    else if h < Total(cs, n - 1) then SyncAt(cs, n - 1, h)
    else Total(cs, n - 1)
  }

  /** Where the `k`-th frame of a run is cut. */
  ghost function FramePosition(h: nat, syncAt: nat, k: nat): nat {
    if k * FRAME < syncAt then k * FRAME else k * FRAME + Low(h % FRAME)
  }

  /** Frame `k` is the stream's bytes there: all 60 of them, or at phase 1 at least the first 59. */
  ghost predicate FrameExact(frame: seq<bv8>, t: seq<bv8>, h: nat, q: nat) {
    && |frame| == FRAME && q + FRAME - 1 <= |t|
    && (forall i | 0 <= i < FRAME - 1 :: frame[i] == t[q + i])
    && (h % FRAME != 1 ==> q + FRAME <= |t| && frame[FRAME - 1] == t[q + FRAME - 1])
  }

  ghost predicate AllExact(out: seq<seq<bv8>>, t: seq<bv8>, h: nat, syncAt: nat) {
    forall k | 0 <= k < |out| :: FrameExact(out[k], t, h, FramePosition(h, syncAt, k))
  }

  lemma PositionsKept(cs: seq<CallData>, n: nat, h: nat, k: nat)
    requires Calls(cs) && 0 < n <= |cs| && k * FRAME < Total(cs, n - 1)
    ensures FramePosition(h, SyncAt(cs, n, h), k) == FramePosition(h, SyncAt(cs, n - 1, h), k)
  {
  }

  lemma NewPosition(cs: seq<CallData>, n: nat, h: nat, j: nat)
    requires Calls(cs) && 0 < n <= |cs| && Total(cs, n - 1) + j * FRAME < Total(cs, n)
    ensures FramePosition(h, SyncAt(cs, n, h), Total(cs, n - 1) / FRAME + j)
            == Total(cs, n - 1) + j * FRAME + (if h < Total(cs, n) then Low(h % FRAME) else 0)
  {
  }

  lemma CutIsExact(frame: seq<bv8>, t: seq<bv8>, h: nat, p: nat, len: nat, j: nat)
    requires (len == FRAME || len == 2 * FRAME) && j < len / FRAME
    requires CutAt(frame, t, p + (if h < p + len then Low(h % FRAME) else 0) + j * FRAME, p + FRAME + len)
    ensures FrameExact(frame, t, h, p + j * FRAME + (if h < p + len then Low(h % FRAME) else 0))
  {
  }

  lemma ExactAppend(out: seq<seq<bv8>>, frames: seq<seq<bv8>>, cs: seq<CallData>, t: seq<bv8>, h: nat, n: nat)
    requires Calls(cs) && 0 < n <= |cs| && |out| * FRAME == Total(cs, n - 1)
    requires AllExact(out, t, h, SyncAt(cs, n - 1, h)) && |frames| == |cs[n - 1].msbc| / FRAME
    requires var p, len := Total(cs, n - 1), |cs[n - 1].msbc|;
             AllCut(frames, t, p + (if h < p + len then Low(h % FRAME) else 0), p + FRAME + len)
    ensures AllExact(out + frames, t, h, SyncAt(cs, n, h))
  {
    hide CutAt, FrameExact, FramePosition;
    var p, len := Total(cs, n - 1), |cs[n - 1].msbc|;
    forall k | 0 <= k < |out + frames|
      ensures FrameExact((out + frames)[k], t, h, FramePosition(h, SyncAt(cs, n, h), k))
    {
      if k < |out| {
        PositionsKept(cs, n, h, k);
      } else {
        NewPosition(cs, n, h, k - |out|);
        CutIsExact(frames[k - |out|], t, h, p, len, k - |out|);
      }
    }
  }

  ghost predicate InStep(st: Window, out: seq<seq<bv8>>, cs: seq<CallData>, t: seq<bv8>, h: nat, n: nat)
    requires Calls(cs) && n <= |cs|
  {
    && st.Valid() && Tracking(st, t, h, Total(cs, n))
    && |out| * FRAME == Total(cs, n)
    && AllExact(out, t, h, SyncAt(cs, n, h))
  }

  /** Call `n` carries the next bytes of the stream. */
  lemma NextBytes(cs: seq<CallData>, t: seq<bv8>, n: nat)
    requires Carries(cs, t) && n < |cs|
    ensures var (p, msbc) := (Total(cs, n), cs[n].msbc);
            && p + |msbc| == Total(cs, n + 1) && (|msbc| == FRAME || |msbc| == 2 * FRAME)
            && p + FRAME + |msbc| <= |t| && msbc == t[p + FRAME..p + FRAME + |msbc|]
  {
  }

  lemma CallInStep(st: Window, out: seq<seq<bv8>>, cs: seq<CallData>, t: seq<bv8>, h: nat, n: nat, pattern: bv8)
    requires Carries(cs, t) && DriftFree(t, h, pattern) && Calls(cs) && n < |cs| && InStep(st, out, cs, t, h, n)
    ensures var (after, frames) := Call(st, cs[n].msbc, 2 * PCM_FRAME, pattern, cs[n].beyond);
            InStep(after, out + frames, cs, t, h, n + 1)
  {
    hide Call, AllExact, DriftFree, AllCut, Carries, SyncAt, Calls;
    var c := cs[n];
    NextBytes(cs, t, n);
    CallTracks(st, t, h, Total(cs, n), c.msbc, 2 * PCM_FRAME, pattern, c.beyond);
    var (after, frames) := Call(st, c.msbc, 2 * PCM_FRAME, pattern, c.beyond);
    ExactAppend(out, frames, cs, t, h, n + 1);
  }

  /** Whole runs: on a drift-free stream, cut into calls of one or two frames in any way, the receiver
      is synchronised exactly when the first header is behind it, and from the call that found it the
      frames cut are every following frame, once and in order. */
  lemma {:induction false} RunTracks(cs: seq<CallData>, t: seq<bv8>, h: nat, n: nat, pattern: bv8)
    requires Carries(cs, t) && DriftFree(t, h, pattern) && Calls(cs) && n <= |cs|
    ensures InStep(Run(cs, n, pattern).0, Run(cs, n, pattern).1, cs, t, h, n)
  {
    hide Call, InStep, DriftFree, Carries;
    if n == 0 {
      RunStarts(cs, t, h, pattern);
    } else {
      RunTracks(cs, t, h, n - 1, pattern);
      CallInStep(Run(cs, n - 1, pattern).0, Run(cs, n - 1, pattern).1, cs, t, h, n - 1, pattern);
    }
  }

  lemma RunStarts(cs: seq<CallData>, t: seq<bv8>, h: nat, pattern: bv8)
    requires Carries(cs, t)
    ensures InStep(Run(cs, 0, pattern).0, Run(cs, 0, pattern).1, cs, t, h, 0)
  {
  }
}
