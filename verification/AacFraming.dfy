/** AAC frames carried over the two-core ring: a two-byte little-endian length, then the payload.
    `store_sbc_buffer` frames on the MCU, `cp_load_aac_frame` unframes on the CP, and the ring may
    cut the length or the payload anywhere. */
module AacFraming {
  import opened Bytes
  import opened A2dpInCache

  const MAX_FRAME := 2048

  /** What `store_sbc_buffer` enqueues for one frame. */
  function Frame(payload: seq<byte>): (f: seq<byte>)
    requires |payload| < MAX_FRAME
    ensures |f| == 2 + |payload| && f[2..] == payload
    ensures var low: int, high: int := f[0], f[1]; low + 256 * high == |payload|
  {
    [|payload| % 0x100, |payload| / 0x100] + payload
  }

  ghost predicate Short(frames: seq<seq<byte>>) {
    forall f | f in frames :: |f| < MAX_FRAME
  }

  function Encode(frames: seq<seq<byte>>): seq<byte>
    requires Short(frames)
  {
    if frames == [] then []
    else Encode(frames[..|frames| - 1]) + Frame(frames[|frames| - 1])
  }

  lemma EncodeNext(frames: seq<seq<byte>>, m: nat)
    requires Short(frames) && m < |frames|
    ensures Short(frames[..m]) && Short(frames[..m + 1])
    ensures Encode(frames[..m + 1]) == Encode(frames[..m]) + Frame(frames[m])
  {
    assert frames[..m + 1][..m] == frames[..m];
  }

  lemma {:induction false} EncodePrefix(frames: seq<seq<byte>>, m: nat)
    requires Short(frames) && m <= |frames|
    ensures Short(frames[..m]) && Encode(frames[..m]) <= Encode(frames)
  {
    if m == |frames| {
      assert frames[..m] == frames;
    } else {
      var init := frames[..|frames| - 1];
      EncodePrefix(init, m);
      assert init[..m] == frames[..m];
    }
  }

  // ---------------------------------------------------------------------------------------------
  // The loader
  // ---------------------------------------------------------------------------------------------

  datatype Outcome = NoLength | BadHeader | Partial | Loaded(payload: seq<byte>)

  function HeaderLen(data: seq<byte>): nat
    requires |data| >= 2
  {
    data[0] as int + 0x100 * (data[1] as int)
  }

  /** What `cp_load_aac_frame` makes of the bytes it can see. */
  function Parse(data: seq<byte>): Outcome {
    if |data| < 2 then NoLength
    else if HeaderLen(data) >= MAX_FRAME then BadHeader
    else if |data| < 2 + HeaderLen(data) then Partial
    else Loaded(data[2..2 + HeaderLen(data)])
  }

  /** Unframing undoes framing, whatever follows in the ring. */
  lemma ParseFrame(payload: seq<byte>, rest: seq<byte>)
    requires |payload| < MAX_FRAME
    ensures Parse(Frame(payload) + rest) == Loaded(payload)
  {
    var data := Frame(payload) + rest;
    assert HeaderLen(data) == |payload|;
    assert data[2..2 + |payload|] == payload;
  }

  /** What the loader decides, by the two length bytes and the count of bytes. */
  lemma ParseTable(data: seq<byte>)
    ensures |data| < 2 ==> Parse(data) == NoLength
    ensures |data| >= 2 ==>
              var low: int, high: int := data[0], data[1];
              var len := low + 256 * high;
              Parse(data) == if len >= 2048 then BadHeader
                             else if |data| < 2 + len then Partial
                             else Loaded(data[2..2 + len])
  {
  }

  /** A cut frame is never taken for a whole one. */
  lemma ParseCutFrame(payload: seq<byte>, n: nat)
    requires |payload| < MAX_FRAME && n < |Frame(payload)|
    ensures Parse(Frame(payload)[..n]) == if n < 2 then NoLength else Partial
  {
    if n >= 2 {
      assert HeaderLen(Frame(payload)[..n]) == |payload|;
    }
  }

  /** The read size handed to the decoder: the smallest of 64, 128, ..., 2048 above the length. */
  function ReadSize(aacLen: nat): (maxRead: nat)
    requires aacLen < MAX_FRAME
    ensures maxRead == 64 || maxRead == 128 || maxRead == 256 || maxRead == 512 || maxRead == 1024 || maxRead == 2048
    ensures aacLen < maxRead && (maxRead == 64 || maxRead <= 2 * aacLen)
  {
    if aacLen < 64 then 64
    else if aacLen < 128 then 128
    else if aacLen < 256 then 256
    else if aacLen < 512 then 512
    else if aacLen < 1024 then 1024
    else 2048
  }

  /** The two length bytes, which the end of the ring may separate. */
  method ReadLength(ring: InCache, inWpos: nat, inRpos: nat) returns (aacLen: nat)
    requires inWpos < ring.cache.Length && inRpos < ring.cache.Length
    requires DataLen(inWpos, inRpos, ring.cache.Length) >= 2
    ensures aacLen == HeaderLen(Window(ring.cache[..], inRpos, 2))
    ensures var next := if inRpos + 1 == ring.cache.Length then 0 else inRpos + 1;
            var low: int, high: int := ring.cache[inRpos], ring.cache[next];
            aacLen == low + 256 * high
  {
    if inWpos > inRpos || ring.cache.Length >= inRpos + 2 {
      aacLen := ring.cache[inRpos] as int + 0x100 * (ring.cache[inRpos + 1] as int);
    } else {
      aacLen := ring.cache[inRpos] as int + 0x100 * (ring.cache[0] as int);
    }
  }

  /** `cp_load_aac_frame`. `maxRead` is the read size handed to the decoder, `reset` is whether
      `dec_reset_queue` was set. */
  method LoadFrame(ring: InCache) returns (ret: nat, payload: seq<byte>, maxRead: nat, reset: bool)
    requires ring.Valid()
    modifies ring`rpos
    ensures ring.Valid()
    ensures var avail := DataLen(ring.wpos, old(ring.rpos), ring.cache.Length);
            var visible := Window(ring.cache[..], old(ring.rpos), avail);
            reset == Parse(visible).BadHeader? &&
            match Parse(visible)
            case NoLength => ret == 1 && ring.rpos == old(ring.rpos)
            case BadHeader => ret == 2 && ring.rpos == old(ring.rpos)
            case Partial => ret == 3 && ring.rpos == old(ring.rpos)
            case Loaded(p) =>
              && ret == 0 && payload == p && |p| < MAX_FRAME && maxRead == ReadSize(|p|)
              && 2 + |p| <= ring.cache.Length
              && ring.rpos == Advance(old(ring.rpos), 2 + |p|, ring.cache.Length)
  {
    payload, maxRead, reset := [], 0, false;
    var inRpos, inWpos := ring.rpos, ring.wpos;
    var len := if inWpos >= inRpos then inWpos - inRpos else ring.cache.Length - inRpos + inWpos;
    if len < 2 {
      return 1, payload, maxRead, reset;
    }
    var aacLen := ReadLength(ring, inWpos, inRpos);
    WindowPrefix(ring.cache[..], inRpos, len, 2);
    inRpos := Advance(inRpos, 2, ring.cache.Length);
    if aacLen >= MAX_FRAME {
      return 2, payload, maxRead, true;
    }
    maxRead := ReadSize(aacLen);
    if len < 2 + aacLen {
      return 3, payload, maxRead, reset;
    }
    payload := ring.GetData(aacLen, inWpos, inRpos);
    WindowInside(ring.cache[..], ring.rpos, len, aacLen);
    ring.rpos := Advance(inRpos, aacLen, ring.cache.Length);
    ret := 0;
  }

  lemma WindowInside(cache: seq<byte>, pos: nat, n: nat, k: nat)
    requires pos < |cache| && 2 + k <= n <= |cache|
    ensures Window(cache, pos, n)[2..2 + k] == Window(cache, Advance(pos, 2, |cache|), k)
  {
  }

  // ---------------------------------------------------------------------------------------------
  // End to end, interleaved
  // ---------------------------------------------------------------------------------------------

  /** The ring with the frames `store_sbc_buffer` accepted and those the loader returned. */
  datatype Link = Link(ring: State, accepted: seq<seq<byte>>, returned: seq<seq<byte>>)

  datatype Move =
    | Accept(frame: seq<byte>)
    | Mcu(step: Step)
    | Look
    | Fetch(n: nat)     // the loader copies `n` more bytes out of the ring
    | Finish            // the loader has all it wants and returns

  /** How many bytes the loader will have copied before it decides: the length, then the payload. */
  function Wanted(got: seq<byte>, avail: nat): nat {
    if avail < 2 then 0
    else if |got| < 2 then 2
    else if HeaderLen(got) >= MAX_FRAME || avail < 2 + HeaderLen(got) then 2
    else 2 + HeaderLen(got)
  }

  /** The loader's verdict from the bytes it copied and the count of bytes it saw. */
  function Verdict(got: seq<byte>, avail: nat): Outcome
    requires |got| == Wanted(got, avail)
  {
    if avail < 2 then NoLength
    else if HeaderLen(got) >= MAX_FRAME then BadHeader
    else if avail < 2 + HeaderLen(got) then Partial
    else Loaded(got[2..])
  }

  function Seen(s: State): nat
    requires s.InRange() && s.cp.Reading? && s.cp.wpos < |s.cache|
  {
    DataLen(s.cp.wpos, s.rpos, |s.cache|)
  }

  predicate IsMcuStep(step: Step) {
    step.McuMeasure? || step.McuPeek? || step.McuCopy? || step.McuPublish? || step.McuDequeue?
  }

  predicate Possible(l: Link, move: Move)
    requires l.ring.InRange()
  {
    match move
    case Accept(f) => |f| < MAX_FRAME
    case Mcu(step) => IsMcuStep(step)
    case Look => true
    case Fetch(n) => CanRead(l.ring, n) && |l.ring.cp.got| + n <= Wanted(l.ring.cp.got, Seen(l.ring))
    case Finish => AtVerdict(l.ring)
  }

  predicate AtVerdict(s: State) {
    s.InRange() && s.cp.Reading? && s.cp.wpos < |s.cache| && |s.cp.got| == Wanted(s.cp.got, Seen(s))
  }

  function Do(l: Link, move: Move): (m: Link)
    requires l.ring.InRange()
    ensures m.ring.InRange()
  {
    if !Possible(l, move) then l else
    match move
    case Accept(f) => Link(Apply(l.ring, Store(Frame(f))), l.accepted + [f], l.returned)
    case Mcu(step) => l.(ring := Apply(l.ring, step))
    case Look => l.(ring := Apply(l.ring, CpLook))
    case Fetch(n) => l.(ring := Apply(l.ring, CpRead(n)))
    case Finish =>
      match Verdict(l.ring.cp.got, Seen(l.ring))
      case Loaded(p) => l.(ring := Apply(l.ring, CpConsume(2 + |p|)), returned := l.returned + [p])
      case _ => l.(ring := Apply(l.ring, CpGiveUp))
  }

  function DoAll(l: Link, moves: seq<Move>): (m: Link)
    requires l.ring.InRange()
    ensures m.ring.InRange()
    decreases |moves|
  {
    if moves == [] then l else DoAll(Do(l, moves[0]), moves[1..])
  }

  ghost predicate LinkInv(l: Link) {
    Inv(l.ring) && Framed(l.ring.source, l.ring.consumed, l.accepted, l.returned)
  }

  /** The bytes sent are the accepted frames; the bytes consumed are the first of them, returned. */
  ghost predicate Framed(source: seq<byte>, consumed: seq<byte>, accepted: seq<seq<byte>>, returned: seq<seq<byte>>) {
    && Short(accepted) && source == Encode(accepted)
    && returned <= accepted && Short(returned) && consumed == Encode(returned)
  }

  /** What the loader has copied is the start of the first frame not returned yet. */
  lemma CopiedIsNextFrame(l: Link)
    requires LinkInv(l) && AtVerdict(l.ring) && Seen(l.ring) >= 2
    ensures |l.returned| < |l.accepted|
    ensures var f := l.accepted[|l.returned|];
            && HeaderLen(l.ring.cp.got) == |f|
            && Verdict(l.ring.cp.got, Seen(l.ring)) == if Seen(l.ring) < 2 + |f| then Partial else Loaded(f)
  {
    NotAllReturned(l);
    NextFrameInSource(l);
    hide Conserved, McuInv, Encode;
    StartOfFrame(l.ring.source, |l.ring.consumed|, l.ring.cp.got, l.accepted[|l.returned|]);
  }

  lemma NotAllReturned(l: Link)
    requires LinkInv(l) && AtVerdict(l.ring) && Seen(l.ring) >= 2
    ensures |l.returned| < |l.accepted|
  {
    assert |l.returned| == |l.accepted| ==> l.returned == l.accepted;
  }

  /** Bytes copied from where a frame begins start with its length, and are the frame if as many. */
  lemma StartOfFrame(source: seq<byte>, lo: nat, got: seq<byte>, f: seq<byte>)
    requires |f| < MAX_FRAME && 2 <= |got| && lo + |got| <= |source| && got == source[lo..lo + |got|]
    requires lo + 2 + |f| <= |source| && source[lo..lo + 2 + |f|] == Frame(f)
    ensures HeaderLen(got) == |f| && (|got| == 2 + |f| ==> got == Frame(f) && got[2..] == f)
  {
    assert got[0] == source[lo..lo + 2 + |f|][0] && got[1] == source[lo..lo + 2 + |f|][1];
    assert Frame(f)[2..] == f;
  }

  lemma NextFrameInSource(l: Link)
    requires LinkInv(l) && |l.returned| < |l.accepted|
    ensures var lo, f := |l.ring.consumed|, l.accepted[|l.returned|];
            lo + 2 + |f| <= |l.ring.source| && l.ring.source[lo..lo + 2 + |f|] == Frame(f)
  {
    var m := |l.returned|;
    assert l.accepted[..m] == l.returned;
    EncodeNext(l.accepted, m);
    EncodePrefix(l.accepted, m + 1);
    var head := Encode(l.accepted[..m + 1]);
    assert head == l.ring.source[..|head|];
    assert head[|l.ring.consumed|..] == Frame(l.accepted[m]);
  }

  /** The bytes the loader could see when it looked. */
  function Visible(s: State): seq<byte>
    requires s.InRange() && s.cp.Reading? && s.cp.wpos < |s.cache|
  {
    Window(s.cache, s.rpos, Seen(s))
  }

  /** In every interleaving the loader's verdict is what parsing those bytes gives. */
  lemma VerdictIsParse(s: State)
    requires Inv(s) && AtVerdict(s)
    ensures Verdict(s.cp.got, Seen(s)) == Parse(Visible(s))
  {
    hide McuInv;
    GotIsVisible(s);
    VerdictOfPrefix(Visible(s), s.cp.got);
  }

  lemma GotIsVisible(s: State)
    requires Inv(s) && s.cp.Reading?
    ensures |s.cp.got| <= Seen(s) && s.cp.got == Visible(s)[..|s.cp.got|]
  {
    hide McuInv;
    var lo := |s.consumed|;
    WindowPrefix(s.cache, s.rpos, s.Unread(), |s.cp.got|);
    WindowPrefix(s.cache, s.rpos, Seen(s), |s.cp.got|);
    SliceOfSlice(s.source, lo, s.Sent(), 0, |s.cp.got|);
  }

  lemma VerdictOfPrefix(visible: seq<byte>, got: seq<byte>)
    requires |got| <= |visible| && got == visible[..|got|] && |got| == Wanted(got, |visible|)
    ensures Verdict(got, |visible|) == Parse(visible)
  {
    if |got| >= 2 {
      assert got[0] == visible[0] && got[1] == visible[1];
    }
  }

  /** The moves of one load that sees `visible`. */
  function LoadMovesFor(visible: seq<byte>): seq<Move> {
    match Parse(visible)
    case NoLength => [Look, Finish]
    case BadHeader => [Look, Fetch(2), Finish]
    case Partial => [Look, Fetch(2), Finish]
    case Loaded(p) => [Look, Fetch(2), Fetch(|p|), Finish]
  }

  /** What `LoadFrame` promises of the ring and its result, on the model's state. */
  function WholeLoadFrame(l: Link): Link
    requires l.ring.InRange()
  {
    match Parse(Window(l.ring.cache, l.ring.rpos, l.ring.Unread()))
    case Loaded(p) =>
      l.(ring := l.ring.(rpos := Advance(l.ring.rpos, 2 + |p|, |l.ring.cache|),
                         consumed := l.ring.consumed + Frame(p)),
         returned := l.returned + [p])
    case _ => l
  }

  /** `LoadFrame` run without interruption is these moves. */
  lemma LoadFrameIsMoves(l: Link)
    requires l.ring.InRange() && l.ring.cp == Waiting
    ensures DoAll(l, LoadMovesFor(Window(l.ring.cache, l.ring.rpos, l.ring.Unread()))) == WholeLoadFrame(l)
  {
    var visible := Window(l.ring.cache, l.ring.rpos, l.ring.Unread());
    var looking := LookSees(l);
    assert looking.(ring := looking.ring.(cp := Waiting)) == l;
    hide Do, Window, WholeLoadFrame, Visible, Parse;
    LoadContinues(looking, visible);
    assert LoadMovesFor(visible)[0] == Look;
  }

  lemma LookSees(l: Link) returns (m: Link)
    requires l.ring.InRange() && l.ring.cp == Waiting
    ensures m == Do(l, Look) == l.(ring := l.ring.(cp := Reading(l.ring.wpos, [])))
    ensures Visible(m.ring) == Window(l.ring.cache, l.ring.rpos, l.ring.Unread())
  {
    m := Do(l, Look);
  }

  lemma LoadContinues(l: Link, visible: seq<byte>)
    requires l.ring.InRange() && l.ring.cp == Reading(l.ring.wpos, []) && visible == Visible(l.ring)
    ensures DoAll(l, LoadMovesFor(visible)[1..]) == WholeLoadFrame(l.(ring := l.ring.(cp := Waiting)))
  {
    hide Do, Window, WholeLoadFrame;
    var moves := LoadMovesFor(visible);
    if |visible| < 2 {
      assert moves[1..][1..] == [];
      FinishLoad(l, visible);
    } else {
      var fetched := LengthFetched(l, visible);
      if Parse(visible).Loaded? {
        DoAllThree(l, moves[1..]);
        PayloadLoads(fetched, visible);
      } else {
        DoAllTwo(l, moves[1..]);
        FinishLoad(fetched, visible);
      }
    }
  }

  lemma LengthFetched(l: Link, visible: seq<byte>) returns (m: Link)
    requires l.ring.InRange() && l.ring.cp == Reading(l.ring.wpos, []) && visible == Visible(l.ring) && |visible| >= 2
    ensures m == Do(l, Fetch(2)) == l.(ring := l.ring.(cp := Reading(l.ring.wpos, visible[..2])))
    ensures visible == Visible(m.ring)
    ensures |visible[..2]| == Wanted(visible[..2], |visible|) <==> !Parse(visible).Loaded? || HeaderLen(visible) == 0
  {
    FetchNext(l, visible, 2);
    m := Do(l, Fetch(2));
    assert HeaderLen(visible[..2]) == HeaderLen(visible);
  }

  lemma PayloadLoads(l: Link, visible: seq<byte>)
    requires l.ring.InRange() && |visible| >= 2 && l.ring.cp == Reading(l.ring.wpos, visible[..2])
    requires visible == Visible(l.ring) && Parse(visible).Loaded?
    ensures var p := Parse(visible).payload;
            Do(Do(l, Fetch(|p|)), Finish) == WholeLoadFrame(l.(ring := l.ring.(cp := Waiting)))
  {
    var p := Parse(visible).payload;
    assert HeaderLen(visible[..2]) == HeaderLen(visible) == HeaderLen(visible[..2 + |p|]);
    FetchNext(l, visible, |p|);
    FinishLoad(Do(l, Fetch(|p|)), visible);
  }

  /** A fetch that stays within what is wanted adds the next visible bytes. */
  lemma FetchNext(l: Link, visible: seq<byte>, n: nat)
    requires l.ring.InRange() && l.ring.cp.Reading? && l.ring.cp.wpos < |l.ring.cache|
    requires visible == Visible(l.ring) && |l.ring.cp.got| + n <= |visible|
    requires l.ring.cp.got == visible[..|l.ring.cp.got|] && |l.ring.cp.got| + n <= Wanted(l.ring.cp.got, |visible|)
    ensures var got := visible[..|l.ring.cp.got| + n];
            && Possible(l, Fetch(n))
            && Do(l, Fetch(n)) == l.(ring := l.ring.(cp := l.ring.cp.(got := got)))
  {
    var k := |l.ring.cp.got|;
    WindowPrefix(l.ring.cache, l.ring.rpos, |visible|, k + n);
    WindowSuffix(l.ring.cache, l.ring.rpos, k + n, k);
    assert visible[..k + n] == visible[..k] + Window(l.ring.cache, Advance(l.ring.rpos, k, |l.ring.cache|), n);
  }

  lemma FinishLoad(l: Link, visible: seq<byte>)
    requires l.ring.InRange() && l.ring.cp.Reading? && l.ring.cp.wpos < |l.ring.cache|
    requires visible == Visible(l.ring) && |l.ring.cp.got| <= |visible|
    requires l.ring.cp.got == visible[..|l.ring.cp.got|] && |l.ring.cp.got| == Wanted(l.ring.cp.got, |visible|)
    requires l.ring.cp.wpos == l.ring.wpos
    ensures Do(l, Finish) == WholeLoadFrame(l.(ring := l.ring.(cp := Waiting)))
  {
    hide Window, Wanted;
    VerdictOfPrefix(visible, l.ring.cp.got);
    FinishIs(l);
    if Verdict(l.ring.cp.got, Seen(l.ring)).Loaded? {
      assert Consume(l.ring, |l.ring.cp.got|).rpos == Advance(l.ring.rpos, |l.ring.cp.got|, |l.ring.cache|);
    } else {
      assert Consume(l.ring, 0).consumed == l.ring.consumed;
    }
  }

  lemma DoAllTwo(l: Link, r: seq<Move>)
    requires l.ring.InRange() && |r| == 2
    ensures DoAll(l, r) == Do(Do(l, r[0]), r[1])
  {
    hide Do;
    assert DoAll(l, r) == DoAll(Do(l, r[0]), r[1..]);
    assert r[1..][1..] == [];
  }

  lemma DoAllThree(l: Link, r: seq<Move>)
    requires l.ring.InRange() && |r| == 3
    ensures DoAll(l, r) == Do(Do(Do(l, r[0]), r[1]), r[2])
  {
    hide Do;
    assert DoAll(l, r) == DoAll(Do(l, r[0]), r[1..]);
    DoAllTwo(Do(l, r[0]), r[1..]);
  }

  lemma FinishKeeps(l: Link)
    requires LinkInv(l) && AtVerdict(l.ring)
    ensures LinkInv(Do(l, Finish))
  {
    FinishIs(l);
    if Verdict(l.ring.cp.got, Seen(l.ring)).Loaded? {
      CopiedIsNextFrame(l);
      ConsumeKeeps(l.ring, |l.ring.cp.got|);
      EncodeReturned(l.ring.source, l.ring.consumed, l.accepted, l.returned);
    } else {
      ConsumeKeeps(l.ring, 0);
    }
  }

  lemma FinishIs(l: Link)
    requires AtVerdict(l.ring)
    ensures var got, v := l.ring.cp.got, Verdict(l.ring.cp.got, Seen(l.ring));
            if v.Loaded? then
              && |v.payload| < MAX_FRAME && got == Frame(v.payload) && CanConsume(l.ring, |got|)
              && Consume(l.ring, |got|).consumed == l.ring.consumed + got
              && Do(l, Finish) == Link(Consume(l.ring, |got|), l.accepted, l.returned + [v.payload])
            else CanConsume(l.ring, 0) && Do(l, Finish) == l.(ring := Consume(l.ring, 0))
  {
    var got := l.ring.cp.got;
    if Verdict(got, Seen(l.ring)).Loaded? {
      LoadedIsFrame(got, Seen(l.ring));
      assert got[..|got|] == got;
    } else {
      assert got[..0] == [];
      assert l.ring.consumed + [] == l.ring.consumed;
    }
  }

  lemma LoadedIsFrame(got: seq<byte>, avail: nat)
    requires |got| == Wanted(got, avail) && Verdict(got, avail).Loaded?
    ensures var p := Verdict(got, avail).payload;
            |got| == 2 + |p| && |p| < MAX_FRAME && got == Frame(p)
  {
  }

  lemma EncodeReturned(source: seq<byte>, consumed: seq<byte>, accepted: seq<seq<byte>>, returned: seq<seq<byte>>)
    requires Framed(source, consumed, accepted, returned) && |returned| < |accepted|
    ensures var f := accepted[|returned|];
            Framed(source, consumed + Frame(f), accepted, returned + [f])
  {
    var m := |returned|;
    assert accepted[..m] == returned;
    assert accepted[..m + 1] == returned + [accepted[m]];
    EncodeNext(accepted, m);
  }

  lemma AcceptKeeps(l: Link, f: seq<byte>)
    requires LinkInv(l) && |f| < MAX_FRAME
    ensures LinkInv(Do(l, Accept(f)))
  {
    StoreKeeps(l.ring, Frame(f));
    EncodeAccepted(l.ring.source, l.ring.consumed, l.accepted, l.returned, f);
    assert Do(l, Accept(f)) == Link(l.ring.(source := l.ring.source + Frame(f)), l.accepted + [f], l.returned);
  }

  lemma EncodeAccepted(source: seq<byte>, consumed: seq<byte>, accepted: seq<seq<byte>>, returned: seq<seq<byte>>,
                       f: seq<byte>)
    requires Framed(source, consumed, accepted, returned) && |f| < MAX_FRAME
    ensures Framed(source + Frame(f), consumed, accepted + [f], returned)
  {
    assert (accepted + [f])[..|accepted|] == accepted;
  }

  lemma MoveKeeps(l: Link, move: Move)
    requires LinkInv(l)
    ensures LinkInv(Do(l, move))
  {
    if Possible(l, move) {
      match move
      case Accept(f) => AcceptKeeps(l, f);
      case Mcu(step) => StepKeeps(l.ring, step); HistoryKept(l, step);
      case Look => StepKeeps(l.ring, CpLook);
      case Fetch(n) => StepKeeps(l.ring, CpRead(n)); HistoryKept(l, CpRead(n));
      case Finish => FinishKeeps(l);
    }
  }

  /** Only `Store` and `CpConsume` touch the history. */
  lemma HistoryKept(l: Link, step: Step)
    requires l.ring.InRange() && !step.Store? && !step.CpConsume?
    ensures Apply(l.ring, step).source == l.ring.source && Apply(l.ring, step).consumed == l.ring.consumed
  {
  }

  lemma {:induction false} MovesKeep(l: Link, moves: seq<Move>)
    requires LinkInv(l)
    ensures LinkInv(DoAll(l, moves))
    decreases |moves|
  {
    if moves != [] {
      MoveKeeps(l, moves[0]);
      MovesKeep(Do(l, moves[0]), moves[1..]);
    }
  }

  predicate Start(l: Link) {
    Init(l.ring) && l.accepted == [] && l.returned == []
  }

  /** Every interleaving: the frames the CP loads are a prefix of the frames accepted, byte for byte,
      and the loader never sees a bad header. */
  lemma FramesArriveInOrder(l: Link, moves: seq<Move>)
    requires Start(l)
    ensures var m := DoAll(l, moves);
            && m.returned <= m.accepted
            && (AtVerdict(m.ring) ==> !Verdict(m.ring.cp.got, Seen(m.ring)).BadHeader?)
  {
    MovesKeep(l, moves);
    var m := DoAll(l, moves);
    if AtVerdict(m.ring) && Seen(m.ring) >= 2 {
      CopiedIsNextFrame(m);
    }
  }

  // ---------------------------------------------------------------------------------------------
  // No deadlock
  // ---------------------------------------------------------------------------------------------

  /** Both cores between two calls. */
  predicate Quiet(l: Link) {
    l.ring.mcu == Ready && l.ring.cp == Waiting
  }

  /** The ring is larger than any frame, so with a frame outstanding either the CP sees all of it or
      the MCU has both room and bytes to move. */
  lemma NeverStuck(l: Link)
    requires LinkInv(l) && Quiet(l) && |l.ring.cache| >= MAX_FRAME + 2
    requires |l.returned| < |l.accepted|
    ensures var f := l.accepted[|l.returned|];
            || l.ring.Unread() >= 2 + |f|
            || (FreeLen(l.ring.wpos, l.ring.rpos, |l.ring.cache|) > 0 && l.ring.taken < |l.ring.source|)
  {
    NextFrameInSource(l);
  }

  lemma {:induction false} DoAllAppend(l: Link, a: seq<Move>, b: seq<Move>)
    requires l.ring.InRange()
    ensures DoAll(l, a + b) == DoAll(DoAll(l, a), b)
    decreases |a|
  {
    if a == [] {
      assert a + b == b;
    } else {
      assert (a + b)[1..] == a[1..] + b;
      DoAllAppend(Do(l, a[0]), a[1..], b);
    }
  }

  /** One uninterrupted load by the MCU. */
  function Refill(s: State): seq<Move>
    requires s.InRange()
  {
    var n := WholeLoad(s).taken - s.taken;
    [Mcu(McuMeasure), Mcu(McuPeek), Mcu(McuCopy(n)), Mcu(McuPublish), Mcu(McuDequeue)]
  }

  lemma RefillMoves(l: Link)
    requires l.ring.InRange() && l.ring.mcu == Ready && FreeLen(l.ring.wpos, l.ring.rpos, |l.ring.cache|) > 0
    ensures DoAll(l, Refill(l.ring)) == l.(ring := WholeLoad(l.ring))
  {
    hide Do, DoAll, Apply, WholeLoad;
    var r := Refill(l.ring);
    DoAllFive(l, r);
    McuRun(l, r);
    LoadIsSteps(l.ring, WholeLoad(l.ring).taken - l.ring.taken);
  }

  lemma McuRun(l: Link, r: seq<Move>)
    requires l.ring.InRange() && |r| == 5 && forall i | 0 <= i < 5 :: r[i].Mcu? && IsMcuStep(r[i].step)
    ensures var ring := Apply(Apply(Apply(l.ring, r[0].step), r[1].step), r[2].step);
            Do(Do(Do(Do(Do(l, r[0]), r[1]), r[2]), r[3]), r[4]) == l.(ring := Apply(Apply(ring, r[3].step), r[4].step))
  {
    var l1 := McuMove(l, r[0].step);
    var l2 := McuMove(l1, r[1].step);
    var l3 := McuMove(l2, r[2].step);
    var l4 := McuMove(l3, r[3].step);
    var l5 := McuMove(l4, r[4].step);
  }

  lemma McuMove(l: Link, step: Step) returns (m: Link)
    requires l.ring.InRange()
    requires IsMcuStep(step)
    ensures m == Do(l, Mcu(step)) == l.(ring := Apply(l.ring, step))
  {
    m := Do(l, Mcu(step));
  }

  lemma DoAllFive(l: Link, r: seq<Move>)
    requires l.ring.InRange() && |r| == 5
    ensures DoAll(l, r) == Do(Do(Do(Do(Do(l, r[0]), r[1]), r[2]), r[3]), r[4])
  {
    var l2 := Do(Do(l, r[0]), r[1]);
    assert DoAll(l, r) == DoAll(l2, r[1..][1..]);
    var l4 := Do(Do(l2, r[2]), r[3]);
    assert DoAll(l2, r[1..][1..]) == DoAll(l4, r[1..][1..][1..][1..]);
    assert DoAll(l4, r[1..][1..][1..][1..]) == Do(l4, r[4]);
  }

  /** One load by the CP when the whole frame is visible. */
  lemma LoadMoves(l: Link) returns (moves: seq<Move>)
    requires LinkInv(l) && Quiet(l) && |l.returned| < |l.accepted|
    requires l.ring.Unread() >= 2 + |l.accepted[|l.returned|]|
    ensures var m := DoAll(l, moves);
            && Quiet(m) && m.accepted == l.accepted
            && m.returned == l.returned + [l.accepted[|l.returned|]]
            && |m.ring.cache| == |l.ring.cache|
  {
    moves := [Look, Fetch(2), Fetch(|l.accepted[|l.returned|]|), Finish];
    var l2 := LoadLength(l);
    var l3 := LoadPayload(l2);
    DoAllFour(l, moves);
  }

  lemma LoadLength(l: Link) returns (m: Link)
    requires LinkInv(l) && Quiet(l) && |l.returned| < |l.accepted|
    requires l.ring.Unread() >= 2 + |l.accepted[|l.returned|]|
    ensures m == Do(Do(l, Look), Fetch(2))
    ensures LinkInv(m) && m.accepted == l.accepted && m.returned == l.returned && |m.ring.cache| == |l.ring.cache|
    ensures m.ring.mcu == Ready && m.ring.cp.Reading? && |m.ring.cp.got| == 2 && Seen(m.ring) == l.ring.Unread()
  {
    MoveKeeps(l, Look);
    var l1 := Do(l, Look);
    FetchMoves(l1, 2);
    MoveKeeps(l1, Fetch(2));
    m := Do(l1, Fetch(2));
  }

  lemma LoadPayload(l: Link) returns (m: Link)
    requires LinkInv(l) && |l.returned| < |l.accepted|
    requires l.ring.mcu == Ready && l.ring.cp.Reading? && |l.ring.cp.got| == 2
    requires Seen(l.ring) >= 2 + |l.accepted[|l.returned|]|
    ensures m == Do(Do(l, Fetch(|l.accepted[|l.returned|]|)), Finish)
    ensures Quiet(m) && m.accepted == l.accepted && |m.ring.cache| == |l.ring.cache|
    ensures m.returned == l.returned + [l.accepted[|l.returned|]]
  {
    var f := l.accepted[|l.returned|];
    FirstFetchGetsLength(l);
    FetchMoves(l, |f|);
    MoveKeeps(l, Fetch(|f|));
    var l1 := Do(l, Fetch(|f|));
    CopiedIsNextFrame(l1);
    FinishIs(l1);
    m := Do(l1, Finish);
  }

  lemma FetchMoves(l: Link, n: nat)
    requires l.ring.InRange() && Possible(l, Fetch(n))
    ensures var m := Do(l, Fetch(n));
            && m == l.(ring := Read(l.ring, n)) && m.ring.cp.Reading?
            && |m.ring.cp.got| == |l.ring.cp.got| + n && Seen(m.ring) == Seen(l.ring)
            && m.ring.cp.got[..|l.ring.cp.got|] == l.ring.cp.got
  {
  }

  lemma FirstFetchGetsLength(l: Link)
    requires LinkInv(l) && |l.returned| < |l.accepted| && l.ring.cp.Reading? && |l.ring.cp.got| == 2
    ensures HeaderLen(l.ring.cp.got) == |l.accepted[|l.returned|]| < MAX_FRAME
  {
    NextFrameInSource(l);
    var lo := |l.ring.consumed|;
    assert l.ring.cp.got == l.ring.source[lo..lo + 2];
    var f := l.accepted[|l.returned|];
    assert l.ring.source[lo..lo + 2 + |f|][..2] == l.ring.source[lo..lo + 2];
  }

  lemma DoAllFour(l: Link, r: seq<Move>)
    requires l.ring.InRange() && |r| == 4
    ensures DoAll(l, r) == Do(Do(Do(Do(l, r[0]), r[1]), r[2]), r[3])
  {
    var l2 := Do(Do(l, r[0]), r[1]);
    assert DoAll(l, r) == DoAll(l2, r[1..][1..]);
    var l3 := Do(l2, r[2]);
    assert DoAll(l2, r[1..][1..]) == DoAll(l3, r[1..][1..][1..]);
    assert DoAll(l3, r[1..][1..][1..]) == Do(l3, r[3]);
  }

  /** From every reachable state between two calls the cores can deliver the next frame. */
  lemma {:induction false} DeliverNext(l: Link) returns (moves: seq<Move>)
    requires LinkInv(l) && Quiet(l) && |l.ring.cache| >= MAX_FRAME + 2 && |l.returned| < |l.accepted|
    ensures var m := DoAll(l, moves);
            && LinkInv(m) && Quiet(m) && m.accepted == l.accepted
            && m.returned == l.returned + [l.accepted[|l.returned|]]
            && |m.ring.cache| == |l.ring.cache|
    decreases |l.ring.source| - l.ring.taken
  {
    NeverStuck(l);
    if l.ring.Unread() >= 2 + |l.accepted[|l.returned|]| {
      moves := LoadMoves(l);
    } else {
      var refill := Refill(l.ring);
      RefillMoves(l);
      MovesKeep(l, refill);
      var rest := DeliverNext(DoAll(l, refill));
      DoAllAppend(l, refill, rest);
      moves := refill + rest;
    }
    MovesKeep(l, moves);
  }

  /** Nothing accepted is ever lost or stuck: some continuation returns every accepted frame. */
  lemma {:induction false} EverythingDeliverable(l: Link) returns (moves: seq<Move>)
    requires LinkInv(l) && Quiet(l) && |l.ring.cache| >= MAX_FRAME + 2
    ensures DoAll(l, moves).returned == DoAll(l, moves).accepted == l.accepted
    decreases |l.accepted| - |l.returned|
  {
    if |l.returned| == |l.accepted| {
      moves := [];
    } else {
      var first := DeliverNext(l);
      var rest := EverythingDeliverable(DoAll(l, first));
      DoAllAppend(l, first, rest);
      moves := first + rest;
    }
  }
}
