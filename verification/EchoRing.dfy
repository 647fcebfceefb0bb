/** The echo reference ring (`echo_buf_q_*`): playback appends a frame, capture takes the oldest one and
    points `aec_echo_buf` at it. Positions count bytes; a flag tells a full ring from an empty one. */
module EchoRing {
  import opened Bytes
  import Ring = A2dpInCache

  function Frames(k: nat, len: nat): nat {
    len * k
  }

  ghost predicate Multiple(x: nat, len: nat) {
    exists k: nat :: Frames(k, len) == x
  }

  datatype Echo = Echo(queue: seq<byte>, wpos: nat, rpos: nat, full: bool) {
    /** The ring holds whole frames, and the flag is only up when the positions meet. */
    ghost predicate Valid(frameLen: nat) {
      && 0 < frameLen && wpos < |queue| && rpos < |queue|
      && Multiple(|queue|, frameLen) && Multiple(wpos, frameLen) && Multiple(rpos, frameLen)
      && (full ==> rpos == wpos)
    }

    /** `queue_len`. */
    function Len(): (n: nat)
      requires wpos < |queue| && rpos < |queue|
      ensures n <= |queue|
    {
      if rpos == wpos then (if full then |queue| else 0) else Ring.DataLen(wpos, rpos, |queue|)
    }

    /** The bytes waiting, oldest first. */
    function Contents(): (c: seq<byte>)
      requires wpos < |queue| && rpos < |queue|
      ensures |c| == Len()
    {
      Ring.Window(queue, rpos, Len())
    }
  }

  function Start(queue: seq<byte>): Echo {
    Echo(queue, 0, 0, false)
  }

  function Next(pos: nat, len: nat, size: nat): nat {
    if pos + len >= size then 0 else pos + len
  }

  /** `voicebtpcm_pcm_audio_more_data`, as far as the ring goes. */
  ghost function Played(e: Echo, frame: seq<byte>): Echo
    requires e.wpos + |frame| <= |e.queue|
  {
    var wpos := Next(e.wpos, |frame|, |e.queue|);
    Echo(e.queue[..e.wpos] + frame + e.queue[e.wpos + |frame|..], wpos, e.rpos, e.full || e.rpos == wpos)
  }

  /** `voicebtpcm_pcm_audio_data_come`, as far as the ring goes. */
  ghost function Captured(e: Echo, frameLen: nat): Echo
  {
    Echo(e.queue, e.wpos, Next(e.rpos, frameLen, |e.queue|), e.full && e.rpos != e.wpos)
  }

  /** A frame always fits behind a position: the assertions on position overflow hold. */
  lemma NoOverflow(pos: nat, len: nat, size: nat)
    requires 0 < len && pos < size && Multiple(pos, len) && Multiple(size, len)
    ensures pos + len <= size && Next(pos, len, size) == Ring.Advance(pos, len, size)
    ensures Next(pos, len, size) < size && Multiple(Next(pos, len, size), len)
  {
    hide Frames;
    var a: nat :| Frames(a, len) == pos;
    var b: nat :| Frames(b, len) == size;
    NextFrame(a, b, len);
  }

  lemma NextFrame(a: nat, b: nat, len: nat)
    requires 0 < len
    ensures Frames(0, len) == 0 && Frames(a + 1, len) == Frames(a, len) + len
    ensures Frames(a, len) < Frames(b, len) ==> Frames(a, len) + len <= Frames(b, len)
  {
    if a < b {
      Ordered(a + 1, b, len);
    } else {
      Ordered(b, a, len);
    }
  }

  lemma Ordered(a: nat, b: nat, len: nat)
    requires a <= b
    ensures len * a <= len * b
  {
    assert len * (b - a) >= 0;
  }

  lemma PlayedKeeps(e: Echo, frame: seq<byte>)
    requires e.Valid(|frame|) && e.Len() + |frame| <= |e.queue|
    ensures e.wpos + |frame| <= |e.queue|
    ensures var t := Played(e, frame);
            t.Valid(|frame|) && t.Len() == e.Len() + |frame| && t.Contents() == e.Contents() + frame
  {
    NoOverflow(e.wpos, |frame|, |e.queue|);
    var t := Played(e, frame);
    assert t.queue == Ring.RingWrite(e.queue, e.wpos, frame);
    Ring.WriteExtendsWindow(e.queue, e.rpos, e.Len(), frame);
  }

  lemma CapturedKeeps(e: Echo, frameLen: nat)
    requires e.Valid(frameLen) && e.Len() >= frameLen
    ensures e.rpos + frameLen <= |e.queue| && e.queue[e.rpos..e.rpos + frameLen] == e.Contents()[..frameLen]
    ensures var t := Captured(e, frameLen);
            t.Valid(frameLen) && t.Len() == e.Len() - frameLen && t.Contents() == e.Contents()[frameLen..]
  {
    NoOverflow(e.rpos, frameLen, |e.queue|);
    Ring.WindowSuffix(e.queue, e.rpos, e.Len(), frameLen);
  }

  class EchoQueue {
    const echoBufQueue: array<byte>
    const frameLen: nat
    var wpos: nat
    var rpos: nat
    var full: bool

    ghost function View(): Echo
      reads this, echoBufQueue
    {
      Echo(echoBufQueue[..], wpos, rpos, full)
    }

    /** `voicebtpcm_pcm_echo_buf_queue_init`. */
    constructor (size: nat, len: nat)
      requires 0 < len && 0 < size && Multiple(size, len)
      ensures View() == Start(echoBufQueue[..]) && View().Valid(len) && frameLen == len
      ensures fresh(echoBufQueue) && echoBufQueue.Length == size
    {
      echoBufQueue := new byte[size](_ => 0);
      frameLen := len;
      wpos, rpos, full := 0, 0, false;
      assert Frames(0, len) == 0;
    }

    /** The length both sides work out from the positions and the flag. */
    method QueueLen() returns (n: nat)
      requires View().Valid(frameLen)
      ensures n == View().Len()
    {
      var size := echoBufQueue.Length;
      if rpos == wpos {
        n := if full then size else 0;
      } else if rpos < wpos {
        n := wpos - rpos;
      } else {
        n := size + wpos - rpos;
      }
    }

    /** Playback appends a frame, for which there must be room. */
    method Play(buf: seq<byte>)
      requires View().Valid(frameLen) && |buf| == frameLen
      requires View().Len() + frameLen <= echoBufQueue.Length
      modifies this, echoBufQueue
      ensures old(wpos) + |buf| <= echoBufQueue.Length
      ensures View() == Played(old(View()), buf) && View().Valid(frameLen)
    {
      hide Multiple;
      PlayedKeeps(View(), buf);
      var n := QueueLen();
      assert wpos + |buf| <= echoBufQueue.Length && n + |buf| <= echoBufQueue.Length;
      forall i | 0 <= i < |buf| {
        echoBufQueue[wpos + i] := buf[i];
      }
      wpos := wpos + |buf|;
      if wpos >= echoBufQueue.Length {
        wpos := 0;
      }
      if rpos == wpos {
        full := true;
      }
    }

    /** Capture takes a frame, of which there must be one: the result is where `aec_echo_buf` points. */
    method Capture() returns (pos: nat)
      requires View().Valid(frameLen) && View().Len() >= frameLen
      modifies this
      ensures View() == Captured(old(View()), frameLen) && View().Valid(frameLen)
      ensures pos + frameLen <= echoBufQueue.Length
      ensures echoBufQueue[pos..pos + frameLen] == old(View()).Contents()[..frameLen]
    {
      CapturedKeeps(View(), frameLen);
      assert rpos + frameLen <= echoBufQueue.Length;
      var n := QueueLen();
      assert n >= frameLen;
      if rpos == wpos {
        full := false;
      }
      pos := rpos;
      rpos := rpos + frameLen;
      if rpos >= echoBufQueue.Length {
        rpos := 0;
      }
    }
  }

  // ---------------------------------------------------------------------------------------------
  // Whole runs
  // ---------------------------------------------------------------------------------------------

  datatype Op = Play(frame: seq<byte>) | Capture

  /** The ring with a record of the frames played and of the frames exposed. */
  datatype Log = Log(echo: Echo, played: seq<seq<byte>>, exposed: seq<seq<byte>>)

  /** Neither side trips over its assertion: playback finds room, capture finds a frame. */
  predicate Allowed(e: Echo, op: Op, frameLen: nat)
    requires e.wpos < |e.queue| && e.rpos < |e.queue|
  {
    match op
    case Play(frame) => |frame| == frameLen && e.Len() + frameLen <= |e.queue|
    case Capture => e.Len() >= frameLen
  }

  ghost function Do(s: Log, op: Op, frameLen: nat): (t: Log)
    requires s.echo.Valid(frameLen) && Allowed(s.echo, op, frameLen)
    ensures t.echo.Valid(frameLen)
  {
    match op
    case Play(frame) =>
      PlayedKeeps(s.echo, frame);
      Log(Played(s.echo, frame), s.played + [frame], s.exposed)
    case Capture =>
      CapturedKeeps(s.echo, frameLen);
      Log(Captured(s.echo, frameLen), s.played,
          s.exposed + [s.echo.queue[s.echo.rpos..s.echo.rpos + frameLen]])
  }

  /** A bounded FIFO of frames: exposed are the first ones played, the others wait in the ring. */
  ghost predicate Fifo(s: Log, frameLen: nat) {
    && s.echo.Valid(frameLen) && s.exposed <= s.played && (forall f | f in s.played :: |f| == frameLen)
    && s.echo.Contents() == Concat(s.played[|s.exposed|..])
    && s.echo.Len() == Frames(|s.played| - |s.exposed|, frameLen)
  }

  lemma PlayFifo(s: Log, frame: seq<byte>)
    requires Fifo(s, |frame|) && Allowed(s.echo, Play(frame), |frame|)
    ensures Fifo(Do(s, Play(frame), |frame|), |frame|)
  {
    hide Played;
    PlayedKeeps(s.echo, frame);
    var waiting := s.played[|s.exposed|..];
    ConcatAppend(waiting, [frame]);
    ConcatOne(frame);
    assert (s.played + [frame])[|s.exposed|..] == waiting + [frame];
    NextFrame(|waiting|, 0, |frame|);
  }

  lemma CaptureFifo(s: Log, frameLen: nat)
    requires Fifo(s, frameLen) && Allowed(s.echo, Capture, frameLen)
    ensures Fifo(Do(s, Capture, frameLen), frameLen)
  {
    hide Captured;
    CapturedKeeps(s.echo, frameLen);
    var waiting := s.played[|s.exposed|..];
    NextFrame(0, 0, frameLen);
    assert waiting != [];
    assert waiting[0] in s.played && waiting[0] == s.played[|s.exposed|];
    assert Concat(waiting) == waiting[0] + Concat(waiting[1..]);
    assert s.played[|s.exposed| + 1..] == waiting[1..];
    NextFrame(|waiting| - 1, 0, frameLen);
  }

  lemma DoFifo(s: Log, op: Op, frameLen: nat)
    requires s.echo.Valid(frameLen) && Fifo(s, frameLen) && Allowed(s.echo, op, frameLen)
    ensures Fifo(Do(s, op, frameLen), frameLen)
  {
    hide Do, Fifo;
    match op {
      case Play(frame) => PlayFifo(s, frame);
      case Capture => CaptureFifo(s, frameLen);
    }
  }

  ghost predicate AllowedRun(start: Log, ops: seq<Op>, frameLen: nat)
    requires start.echo.Valid(frameLen)
    decreases |ops|
  {
    hide Do, Allowed;
    ops == [] || (Allowed(start.echo, ops[0], frameLen) && AllowedRun(Do(start, ops[0], frameLen), ops[1..], frameLen))
  }

  ghost function Run(start: Log, ops: seq<Op>, frameLen: nat): Log
    requires start.echo.Valid(frameLen) && AllowedRun(start, ops, frameLen)
    decreases |ops|
  {
    hide Do, Allowed;
    if ops == [] then start else Run(Do(start, ops[0], frameLen), ops[1..], frameLen)
  }

  /** Whole runs: the n-th frame exposed is the n-th frame played, and the length worked out from the
      positions and the flag is the frames played minus the frames exposed. */
  lemma {:induction false} RunIsFifo(start: Log, ops: seq<Op>, frameLen: nat)
    requires start.echo.Valid(frameLen) && Fifo(start, frameLen) && AllowedRun(start, ops, frameLen)
    ensures Fifo(Run(start, ops, frameLen), frameLen)
    decreases |ops|
  {
    hide Fifo, Do, Allowed;
    if ops != [] {
      DoFifo(start, ops[0], frameLen);
      RunIsFifo(Do(start, ops[0], frameLen), ops[1..], frameLen);
    }
  }

  lemma StartFifo(queue: seq<byte>, frameLen: nat)
    requires 0 < frameLen && 0 < |queue| && Multiple(|queue|, frameLen)
    ensures Fifo(Log(Start(queue), [], []), frameLen)
  {
    assert Frames(0, frameLen) == 0;
  }

  /** The two assertions on the queue length are those of a FIFO of `capacity` frames: playback needs
      fewer waiting, capture needs one. */
  lemma AllowedByCount(s: Log, op: Op, frameLen: nat, capacity: nat)
    requires Fifo(s, frameLen) && Frames(capacity, frameLen) == |s.echo.queue|
    ensures Allowed(s.echo, op, frameLen) <==>
            match op
            case Play(frame) => |frame| == frameLen && |s.played| - |s.exposed| < capacity
            case Capture => |s.played| - |s.exposed| >= 1
  {
    var n := |s.played| - |s.exposed|;
    NextFrame(n, capacity, frameLen);
    if n < capacity {
      Ordered(n + 1, capacity, frameLen);
    } else {
      Ordered(capacity, n, frameLen);
    }
    if n >= 1 {
      Ordered(1, n, frameLen);
    }
  }
}
